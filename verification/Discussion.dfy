/** The bounded design discussion: turns, statements appended to the log, and the outcome
    derived from it. */
module Discussion {
  import opened Wrappers
  import opened Strings
  import opened Events

  const MAX_PUBLIC_RESPONSE := 16_384

  datatype Status = Open | Closed | Failed

  datatype DiscussionState = DiscussionState(status: Status, finalDecision: Option<string>,
                                             participants: (string, string))

  // ---- Reading a discussion back from the log ----

  predicate InThread(e: Event, threadId: string) {
    e.body.Discussion? && e.body.threadId == threadId
  }

  /** The events of one thread, in log order. */
  function Thread(log: seq<Event>, threadId: string): (thread: seq<Event>)
    ensures forall e | e in thread :: e.body.Discussion?
  {
    if log == [] then []
    else
      Thread(log[..|log| - 1], threadId) +
      if InThread(log[|log| - 1], threadId) then [log[|log| - 1]] else []
  }

  lemma {:induction false} ThreadAppend(log: seq<Event>, more: seq<Event>, threadId: string)
    ensures Thread(log + more, threadId) == Thread(log, threadId) + Thread(more, threadId)
  {
    if more == [] {
      assert log + more == log;
    } else {
      var init, last := more[..|more| - 1], more[|more| - 1];
      assert (log + more)[..|log + more| - 1] == log + init;
      ThreadAppend(log, init, threadId);
    }
  }

  lemma {:induction false} ThreadNext(log: seq<Event>, e: Event, threadId: string)
    ensures Thread(log + [e], threadId) == Thread(log, threadId) + if InThread(e, threadId) then [e] else []
  {
    assert (log + [e])[..|log|] == log;
  }

  lemma {:induction false} ForeignThread(log: seq<Event>, threadId: string)
    requires forall e | e in log :: !InThread(e, threadId)
    ensures Thread(log, threadId) == []
  {
    if log != [] {
      ForeignThread(log[..|log| - 1], threadId);
    }
  }

  function FirstStarted(thread: seq<Event>): (started: Option<Event>)
    requires forall e | e in thread :: e.body.Discussion?
    ensures started.Some? ==> started.value.body.Discussion?
  {
    if thread == [] then None
    else if thread[0].body.kind.Started? then Some(thread[0])
    else FirstStarted(thread[1..])
  }

  function LastClosed(thread: seq<Event>): (closed: Option<Event>)
    requires forall e | e in thread :: e.body.Discussion?
    ensures closed.Some? ==> closed.value.body.Discussion?
  {
    if thread == [] then None
    else if thread[|thread| - 1].body.kind.Closed? then Some(thread[|thread| - 1])
    else LastClosed(thread[..|thread| - 1])
  }

  /** buildDiscussion: the first start, the last close. */
  function Build(log: seq<Event>, threadId: string): Option<DiscussionState> {
    var thread := Thread(log, threadId);
    match FirstStarted(thread)
    case None => None
    case Some(started) =>
      match started.body.participants
      case None => None
      case Some(participants) =>
        match LastClosed(thread)
        case None => Some(DiscussionState(Open, None, participants))
        case Some(closed) =>
          if closed.body.outcome == Some(DiscussionOutcome.Failed)
          then Some(DiscussionState(Status.Failed, None, participants))
          else Some(DiscussionState(Status.Closed, Some(closed.body.content), participants))
  }

  lemma {:induction false} NoCloseNoLast(thread: seq<Event>)
    requires forall e | e in thread :: e.body.Discussion?
    requires forall i | 0 <= i < |thread| :: !thread[i].body.kind.Closed?
    ensures LastClosed(thread).None?
  {
    if thread != [] {
      NoCloseNoLast(thread[..|thread| - 1]);
    }
  }

  /** A thread that started and has no close is open; one that ends in a close has its outcome. */
  lemma {:induction false} BuildStatus(log: seq<Event>, o: Options)
    requires var thread := Thread(log, o.threadId); thread != [] && IsStart(thread[0], o)
    ensures var thread, state := Thread(log, o.threadId), Build(log, o.threadId);
            && state.Some? && state.value.participants == (Trim(o.proposer), Trim(o.reviewer))
            && ((forall i | 0 <= i < |thread| :: !thread[i].body.kind.Closed?) ==> state.value.status.Open?)
            && (thread[|thread| - 1].body.kind.Closed? ==>
                  if thread[|thread| - 1].body.outcome == Some(DiscussionOutcome.Failed)
                  then state.value.status.Failed?
                  else state.value.status.Closed?
                       && state.value.finalDecision == Some(thread[|thread| - 1].body.content))
  {
    var thread := Thread(log, o.threadId);
    assert thread[0] in thread;
    if forall i | 0 <= i < |thread| :: !thread[i].body.kind.Closed? {
      NoCloseNoLast(thread);
    }
  }

  // ---- The world a run meets ----

  /** What one use of the log or of the kill switch comes to. */
  datatype Verdict = Pass | Halt | Fault

  datatype Reply = Says(text: string) | Throws(halting: bool)

  /** One answer for each primitive step of the run, by step number: the verdict of a check, read
      or append, the reply to a question, the id of an event, and whatever other writers append
      to the log just before. The synthesis parser, to a decision and its rationale, is any function. */
  datatype World = World(verdict: nat -> Verdict, reply: nat -> Reply, id: nat -> string,
                         foreign: nat -> seq<Event>, parse: string -> Option<(string, string)>)

  /** Why a run ended: its options, or the error that one step threw. */
  datatype Failure = InvalidOptions | StepFailed(step: nat, halting: bool)

  datatype Role = Proposer | Reviewer

  predicate ValidReply(reply: Reply) {
    reply.Says? && Trim(reply.text) != "" && |Trim(reply.text)| <= MAX_PUBLIC_RESPONSE
  }

  datatype Options = Options(topic: string, proposer: string, reviewer: string, proposerRole: Role, reviewerRole: Role,
                             rounds: int, maxTurns: int, threadId: string, initiator: string)

  function RequiredTurns(rounds: int): int {
    rounds * 2 + 1
  }

  /** validateDiscussionOptions. */
  predicate ValidOptions(o: Options) {
    && Trim(o.topic) != "" && |o.topic| <= 8_192
    && 1 <= o.rounds <= 8
    && o.maxTurns >= 1 && o.maxTurns >= RequiredTurns(o.rounds)
    && o.proposerRole.Proposer? && o.reviewerRole.Reviewer?
    && Trim(o.proposer) != "" && Trim(o.reviewer) != ""
    && o.proposer != o.reviewer
  }

  // ---- The schedule of a run ----

  /** Step 0 appends the start; then per turn a check, a question and an append; then a check, a
      read, the synthesis question, the appends of summary, decision and close, and a last read. */
  predicate IsQuestion(rounds: nat, k: nat) {
    (1 <= k <= 6 * rounds && k % 3 == 2) || k == 6 * rounds + 3
  }

  /** Reading the log does not look at the kill switch. */
  predicate IsRead(rounds: nat, k: nat) {
    k == 6 * rounds + 2 || k == 6 * rounds + 7
  }

  /** What is published of the reply at step k. */
  function Said(w: World, k: nat): string {
    match w.reply(k)
    case Says(text) => Trim(text)
    case Throws(_) => ""
  }

  predicate StepPasses(w: World, rounds: nat, k: nat) {
    if IsQuestion(rounds, k)
    then ValidReply(w.reply(k)) && (k == 6 * rounds + 3 ==> w.parse(Said(w, k)).Some?)
    else if IsRead(rounds, k) then !w.verdict(k).Fault?
    else w.verdict(k).Pass?
  }

  predicate StepHalts(w: World, rounds: nat, k: nat) {
    if IsQuestion(rounds, k) then w.reply(k) == Throws(true)
    else !IsRead(rounds, k) && w.verdict(k).Halt?
  }

  ghost predicate PassesBefore(w: World, rounds: nat, n: nat) {
    forall k: nat | k < n :: StepPasses(w, rounds, k)
  }

  /** The run got exactly as far as step k. */
  ghost predicate StopsAt(w: World, rounds: nat, k: nat) {
    PassesBefore(w, rounds, k) && !StepPasses(w, rounds, k)
  }

  lemma {:induction false} TurnSteps(rounds: nat, j: nat)
    requires j < 2 * rounds
    ensures var k := 1 + 3 * j;
            && !IsQuestion(rounds, k) && IsQuestion(rounds, k + 1) && !IsQuestion(rounds, k + 2)
            && !IsRead(rounds, k) && !IsRead(rounds, k + 2) && k + 1 < 6 * rounds
  {
  }

  lemma {:induction false} SynthesisSteps(rounds: nat)
    ensures var k := 6 * rounds + 1;
            && !IsQuestion(rounds, k) && !IsRead(rounds, k) && !IsQuestion(rounds, k + 1) && IsRead(rounds, k + 1)
            && IsQuestion(rounds, k + 2) && !IsQuestion(rounds, k + 3) && !IsRead(rounds, k + 3)
            && !IsQuestion(rounds, k + 4) && !IsRead(rounds, k + 4) && !IsQuestion(rounds, k + 5)
                && !IsRead(rounds, k + 5)
            && !IsQuestion(rounds, k + 6) && IsRead(rounds, k + 6)
  {
  }

  /** A step that fails after the start, and not by a halt, is recorded by the next two appends. */
  predicate Recorded(w: World, rounds: nat, k: nat) {
    k > 0 && !StepHalts(w, rounds, k) && w.verdict(k + 1).Pass? && w.verdict(k + 2).Pass?
  }

  /** The error that leaves a run stopped by step k: its own, unless recording it fails, since
      then the error of the recording is thrown in its place. */
  function Thrown(w: World, rounds: nat, k: nat): Failure {
    if k == 0 || StepHalts(w, rounds, k) then StepFailed(k, StepHalts(w, rounds, k))
    else if !w.verdict(k + 1).Pass? then StepFailed(k + 1, w.verdict(k + 1).Halt?)
    else if !w.verdict(k + 2).Pass? then StepFailed(k + 2, w.verdict(k + 2).Halt?)
    else StepFailed(k, false)
  }

  /** The result of a run, told from the answers of the world alone: it succeeds when every step
      passes; otherwise the first failing step and its recording give the error. */
  ghost predicate OutcomeIs(r: Result<string, Failure>, recorded: bool, w: World, rounds: nat) {
    match r
    case Ok(_) => !recorded && PassesBefore(w, rounds, 6 * rounds + 8)
    case Err(failure) =>
      exists k: nat :: k < 6 * rounds + 8 && StopsAt(w, rounds, k)
                       && failure == Thrown(w, rounds, k) && (recorded <==> Recorded(w, rounds, k))
  }

  lemma {:induction false} FailedOutcome(failure: Failure, recorded: bool, w: World, rounds: nat, k: nat)
    requires k < 6 * rounds + 8 && StopsAt(w, rounds, k)
    requires failure == Thrown(w, rounds, k) && (recorded <==> Recorded(w, rounds, k))
    ensures OutcomeIs(Err(failure), recorded, w, rounds)
  {
  }

  /** The step that stops a run is unique, so the answers of the world decide the outcome. */
  lemma {:induction false} OutcomeIsDetermined(r: Result<string, Failure>, recorded: bool,
                                               q: Result<string, Failure>, written: bool, w: World, rounds: nat)
    requires OutcomeIs(r, recorded, w, rounds) && OutcomeIs(q, written, w, rounds)
    ensures (r.Ok? <==> q.Ok?) && (recorded <==> written) && (r.Err? && q.Err? ==> r.error == q.error)
  {
    if r.Err? {
      var k: nat :| k < 6 * rounds + 8 && StopsAt(w, rounds, k)
                    && r.error == Thrown(w, rounds, k) && (recorded <==> Recorded(w, rounds, k));
      if q.Err? {
        var n: nat :| n < 6 * rounds + 8 && StopsAt(w, rounds, n)
                      && q.error == Thrown(w, rounds, n) && (written <==> Recorded(w, rounds, n));
        assert !(k < n) && !(n < k);
      }
    }
  }

  /** A result that the world's answers leave after step k has stopped the run: the step's own error
      exactly when that needs no record or the failure is recorded, else that of the first append
      of the record that fails. */
  lemma {:induction false} ThrowsItsOwnExactly(r: Result<string, Failure>, recorded: bool, w: World, rounds: nat,
                                               k: nat)
    requires OutcomeIs(r, recorded, w, rounds) && k < 6 * rounds + 8 && StopsAt(w, rounds, k)
    ensures r.Err?
    ensures r.error == StepFailed(k, StepHalts(w, rounds, k)) <==> k == 0 || StepHalts(w, rounds, k) || recorded
    ensures r.error != StepFailed(k, StepHalts(w, rounds, k)) ==>
              r.error == if w.verdict(k + 1).Pass? then StepFailed(k + 2, w.verdict(k + 2).Halt?)
                         else StepFailed(k + 1, w.verdict(k + 1).Halt?)
  {
    if r.Err? {
      var n: nat :| n < 6 * rounds + 8 && StopsAt(w, rounds, n)
                    && r.error == Thrown(w, rounds, n) && (recorded <==> Recorded(w, rounds, n));
      assert !(k < n) && !(n < k);
    }
  }

  /** The first answer throws an ordinary error, and the kill switch is on when that is recorded:
      the caller sees a halt, and the log no failure. */
  lemma {:induction false} HaltReplacesError(r: Result<string, Failure>, recorded: bool, w: World, rounds: nat)
    requires OutcomeIs(r, recorded, w, rounds) && rounds >= 1
    requires w.verdict(0).Pass? && w.verdict(1).Pass? && w.reply(2) == Throws(false) && w.verdict(3).Halt?
    ensures r == Err(StepFailed(3, true)) && !recorded
  {
    assert !IsQuestion(rounds, 0) && !IsQuestion(rounds, 1) && IsQuestion(rounds, 2);
    assert StopsAt(w, rounds, 2);
    ThrowsItsOwnExactly(r, recorded, w, rounds, 2);
  }

  predicate Alternating(asked: seq<Role>) {
    forall i | 0 <= i < |asked| :: asked[i] == if i % 2 == 0 then Proposer else Reviewer
  }

  /** Alternating questions charge the proposer one more than the reviewer at most. */
  lemma {:induction false} TurnBudget(asked: seq<Role>)
    requires Alternating(asked)
    ensures multiset(asked)[Proposer] == (|asked| + 1) / 2 && multiset(asked)[Reviewer] == |asked| / 2
  {
    if asked != [] {
      assert asked == asked[..|asked| - 1] + [asked[|asked| - 1]];
      TurnBudget(asked[..|asked| - 1]);
    }
  }

  predicate IsStart(e: Event, o: Options) {
    && e.from == Trim(o.initiator) && e.to == "*"
    && e.body == Discussion(o.threadId, Started, 0, Trim(o.topic), None, Some((Trim(o.proposer), Trim(o.reviewer))),
                            None)
  }

  /** The statement of turn j, counted from 0: proposals and critiques in alternation. */
  predicate IsTurn(e: Event, o: Options, w: World, j: nat) {
    && InThread(e, o.threadId) && e.body.round == j / 2 + 1 && e.body.content == Said(w, 3 * j + 2)
    && (if j % 2 == 0
        then e.from == Trim(o.proposer) && e.to == Trim(o.reviewer)
             && e.body.kind == if j == 0 then Proposal else Revision
        else e.from == Trim(o.reviewer) && e.to == Trim(o.proposer) && e.body.kind == Critique)
  }

  predicate IsSummary(e: Event, o: Options) {
    && InThread(e, o.threadId) && e.body.kind == DiscussionKind.Summary && e.body.round == o.rounds
    && e.from == Trim(o.proposer) && e.to == "*"
  }

  predicate IsDecidedClose(e: Event, o: Options, decision: string) {
    && InThread(e, o.threadId) && e.body.kind == DiscussionKind.Closed
    && e.body.outcome == Some(DiscussionOutcome.Decided) && e.body.content == decision && e.body.round == o.rounds
    && e.from == Trim(o.initiator) && e.to == "*"
  }

  predicate IsFailedClose(e: Event, o: Options) {
    && InThread(e, o.threadId) && e.body.kind == DiscussionKind.Closed
    && e.body.outcome == Some(DiscussionOutcome.Failed)
    && e.from == Trim(o.initiator) && e.to == "*"
  }

  /** Every statement replies to the one before it: a single path back to the start. */
  ghost predicate Linked(thread: seq<Event>) {
    forall i | 0 < i < |thread| :: thread[i].body.Discussion? && thread[i].body.replyTo == Some(thread[i - 1].id)
  }

  /** The start and the given number of turns. */
  ghost predicate Turns(mine: seq<Event>, o: Options, w: World, turns: nat) {
    && |mine| > turns && IsStart(mine[0], o)
    && forall i | 0 < i <= turns :: IsTurn(mine[i], o, w, i - 1)
  }

  /** What a run has added to its thread after that many turns. */
  ghost predicate Underway(mine: seq<Event>, o: Options, w: World, turns: nat) {
    |mine| == turns + 1 && Turns(mine, o, w, turns) && Linked(mine)
  }

  /** All turns, a summary and a close, in one reply path; both say what the synthesis said. */
  ghost predicate Concluded(mine: seq<Event>, o: Options, w: World, decision: string) {
    && o.rounds >= 0 && |mine| == 2 * o.rounds + 3
    && Turns(mine, o, w, 2 * o.rounds) && Linked(mine)
    && IsSummary(mine[2 * o.rounds + 1], o)
    && w.parse(Said(w, 6 * o.rounds + 3)) == Some((decision, mine[2 * o.rounds + 1].body.content))
    && IsDecidedClose(mine[2 * o.rounds + 2], o, decision)
  }

  /** The round that step k belongs to; what comes after all rounds counts to the last. */
  function RoundOf(rounds: nat, k: nat): int {
    if 1 <= k <= 6 * rounds then (k - 1) / 6 + 1 else rounds
  }

  /** The last statement is a failed close of the round in which the run stopped. */
  ghost predicate EndsFailed(mine: seq<Event>, o: Options, w: World) {
    && mine != [] && o.rounds >= 0 && IsFailedClose(mine[|mine| - 1], o)
    && exists k: nat :: StopsAt(w, o.rounds, k) && mine[|mine| - 1].body.round == RoundOf(o.rounds, k)
  }

  lemma {:induction false} FailedEnds(mine: seq<Event>, o: Options, w: World, k: nat, round: int)
    requires mine != [] && o.rounds >= 0 && StopsAt(w, o.rounds, k) && round == RoundOf(o.rounds, k)
    requires IsFailedClose(mine[|mine| - 1], o) && mine[|mine| - 1].body.round == round
    ensures EndsFailed(mine, o, w)
  {
  }

  /** Started and not closed. */
  ghost predicate Unfinished(mine: seq<Event>, o: Options) {
    && mine != [] && IsStart(mine[0], o) && Linked(mine)
    && forall i | 0 <= i < |mine| :: InThread(mine[i], o.threadId) && !mine[i].body.kind.Closed?
  }

  lemma {:induction false} StillOpen(mine: seq<Event>, o: Options, w: World, turns: nat)
    requires Underway(mine, o, w, turns)
    ensures Unfinished(mine, o)
  {
    forall i | 0 <= i < |mine| ensures InThread(mine[i], o.threadId) && !mine[i].body.kind.Closed? {
      if i > 0 { assert IsTurn(mine[i], o, w, i - 1); }
    }
  }

  lemma {:induction false} TurnsExtend(mine: seq<Event>, more: seq<Event>, o: Options, w: World, turns: nat)
    requires Turns(mine, o, w, turns)
    ensures Turns(mine + more, o, w, turns)
  {
    forall i | 0 < i <= turns ensures IsTurn((mine + more)[i], o, w, i - 1) {
      assert (mine + more)[i] == mine[i];
    }
  }

  lemma {:induction false} LinkedNext(mine: seq<Event>, e: Event)
    requires Linked(mine) && mine != [] && e.body.Discussion? && e.body.replyTo == Some(mine[|mine| - 1].id)
    ensures Linked(mine + [e])
  {
  }

  lemma {:induction false} UnderwayNext(mine: seq<Event>, o: Options, w: World, turns: nat, e: Event)
    requires Underway(mine, o, w, turns) && IsTurn(e, o, w, turns) && e.body.replyTo == Some(mine[turns].id)
    ensures Underway(mine + [e], o, w, turns + 1)
  {
    LinkedNext(mine, e);
    TurnsExtend(mine, [e], o, w, turns);
    assert (mine + [e])[turns + 1] == e;
  }

  lemma {:induction false} UnfinishedNext(mine: seq<Event>, o: Options, summary: Event)
    requires Unfinished(mine, o) && IsSummary(summary, o) && summary.body.replyTo == Some(mine[|mine| - 1].id)
    ensures Unfinished(mine + [summary], o)
  {
    LinkedNext(mine, summary);
  }

  lemma {:induction false} ConcludedNext(mine: seq<Event>, o: Options, w: World, summary: Event, close: Event,
                                         decision: string)
    requires o.rounds >= 0 && Underway(mine, o, w, 2 * o.rounds)
    requires IsSummary(summary, o) && w.parse(Said(w, 6 * o.rounds + 3)) == Some((decision, summary.body.content))
    requires summary.body.replyTo == Some(mine[2 * o.rounds].id)
    requires IsDecidedClose(close, o, decision) && close.body.replyTo == Some(summary.id)
    ensures Concluded(mine + [summary] + [close], o, w, decision)
  {
    LinkedNext(mine, summary);
    LinkedNext(mine + [summary], close);
    TurnsExtend(mine, [summary, close], o, w, 2 * o.rounds);
    assert mine + [summary, close] == mine + [summary] + [close];
  }

  /** A summary has been given, so that any close with the decision concludes the discussion. */
  ghost predicate Closable(mine: seq<Event>, o: Options, w: World, summary: Event, decision: string) {
    && Unfinished(mine, o)
    && forall close | IsDecidedClose(close, o, decision) && close.body.replyTo == Some(summary.id) ::
         Concluded(mine + [close], o, w, decision)
  }

  lemma {:induction false} SummaryMakesClosable(turns: seq<Event>, o: Options, w: World, summary: Event,
                                                decision: string)
    requires o.rounds >= 0 && Underway(turns, o, w, 2 * o.rounds)
    requires IsSummary(summary, o) && summary.body.replyTo == Some(turns[2 * o.rounds].id)
    requires w.parse(Said(w, 6 * o.rounds + 3)) == Some((decision, summary.body.content))
    ensures Closable(turns + [summary], o, w, summary, decision)
  {
    StillOpen(turns, o, w, 2 * o.rounds);
    UnfinishedNext(turns, o, summary);
    forall close | IsDecidedClose(close, o, decision) && close.body.replyTo == Some(summary.id)
      ensures Concluded(turns + [summary] + [close], o, w, decision)
    {
      ConcludedNext(turns, o, w, summary, close, decision);
    }
  }

  /** The decision that the synthesis came to. */
  function Decided(w: World, rounds: nat): Option<string> {
    var conclusion := w.parse(Said(w, 6 * rounds + 3));
    if conclusion.Some? then Some(conclusion.value.0) else None
  }

  /** What a reader of the log finds after a run: the status, and the decision of a closed one. */
  ghost predicate StatusIs(state: Option<DiscussionState>, w: World, o: Options, recorded: bool)
    requires o.rounds >= 0
  {
    && (state.None? <==> !StepPasses(w, o.rounds, 0))
    && (state.Some? ==>
          && state.value.participants == (Trim(o.proposer), Trim(o.reviewer))
          && (state.value.status.Failed? <==> recorded)
          && (state.value.status.Closed? <==> !recorded && PassesBefore(w, o.rounds, 6 * o.rounds + 7))
          && state.value.finalDecision == if state.value.status.Closed? then Decided(w, o.rounds) else None)
  }

  /** A thread that a failed close was added to reads as failed. */
  lemma {:induction false} RecordedBuild(log: seq<Event>, w: World, o: Options, before: seq<Event>, close: Event)
    requires o.rounds >= 0 && StepPasses(w, o.rounds, 0) && before != [] && IsStart(before[0], o)
    requires Thread(log, o.threadId) == before + [close] && IsFailedClose(close, o)
    ensures StatusIs(Build(log, o.threadId), w, o, true)
  {
    assert (before + [close])[0] == before[0];
    BuildStatus(log, o);
    DecisionOf(log, o);
  }

  /** A thread without a close reads as open. */
  lemma {:induction false} UnfinishedBuild(log: seq<Event>, w: World, o: Options, k: nat)
    requires o.rounds >= 0 && StepPasses(w, o.rounds, 0) && k <= 6 * o.rounds + 6 && !StepPasses(w, o.rounds, k)
    requires Unfinished(Thread(log, o.threadId), o)
    ensures StatusIs(Build(log, o.threadId), w, o, false)
  {
    assert !PassesBefore(w, o.rounds, 6 * o.rounds + 7);
    BuildStatus(log, o);
    DecisionOf(log, o);
  }

  /** Only a closed discussion has a decision. */
  lemma {:induction false} DecisionOf(log: seq<Event>, o: Options)
    ensures var state := Build(log, o.threadId);
            state.Some? && !state.value.status.Closed? ==> state.value.finalDecision == None
  {
  }

  /** How a run that started leaves its thread, from the step that failed. */
  lemma {:induction false} FailureBuild(log: seq<Event>, w: World, o: Options, before: seq<Event>, k: nat,
                                        recorded: bool)
    requires o.rounds >= 0 && 0 < k < 6 * o.rounds + 8 && StopsAt(w, o.rounds, k)
    requires if k <= 6 * o.rounds + 6 then Unfinished(before, o) else exists d :: Concluded(before, o, w, d)
    requires var thread := Thread(log, o.threadId);
             if recorded then exists e :: IsFailedClose(e, o) && thread == before + [e] else thread == before
    ensures StatusIs(Build(log, o.threadId), w, o, recorded)
  {
    assert StepPasses(w, o.rounds, 0);
    if recorded {
      var e :| IsFailedClose(e, o) && Thread(log, o.threadId) == before + [e];
      RecordedBuild(log, w, o, before, e);
    } else if k <= 6 * o.rounds + 6 {
      UnfinishedBuild(log, w, o, k);
    } else {
      var d :| Concluded(before, o, w, d);
      ConcludedBuild(log, w, o, d);
    }
  }

  /** A thread with the whole discussion reads as closed, with its decision. */
  lemma {:induction false} ConcludedBuild(log: seq<Event>, w: World, o: Options, decision: string)
    requires o.rounds >= 0 && PassesBefore(w, o.rounds, 6 * o.rounds + 7)
    requires Concluded(Thread(log, o.threadId), o, w, decision)
    ensures StatusIs(Build(log, o.threadId), w, o, false)
  {
    assert StepPasses(w, o.rounds, 0);
    BuildStatus(log, o);
  }

  class Runner {
    const world: World
    const options: Options
    var log: seq<Event>
    var time: nat
    var asked: seq<Role>
    /** The thread as this run found it, and what the run has added to it. */
    ghost const base: seq<Event>
    ghost var mine: seq<Event>

    constructor (world: World, options: Options, log: seq<Event>)
      requires forall k: nat, e | e in world.foreign(k) :: !InThread(e, options.threadId)
      ensures this.world == world && this.options == options && this.log == log
      ensures Valid() && time == 0 && asked == [] && base == Thread(log, options.threadId) && mine == []
    {
      this.world, this.options, this.log, time, asked := world, options, log, 0, [];
      base, mine := Thread(log, options.threadId), [];
    }

    /** Other writers do not use this thread. */
    ghost predicate Valid()
      reads this`log, this`mine
    {
      && (forall k: nat, e | e in world.foreign(k) :: !InThread(e, options.threadId))
      && Thread(log, options.threadId) == base + mine
    }

    /** Every step so far has passed. */
    ghost predicate OnTrack()
      reads this`time
    {
      options.rounds >= 0 && PassesBefore(world, options.rounds, time)
    }

    /** The last step is the first that did not pass. */
    ghost predicate Stopped(failure: Failure)
      reads this`time
    {
      && options.rounds >= 0 && time > 0 && StopsAt(world, options.rounds, time - 1)
      && failure == StepFailed(time - 1, StepHalts(world, options.rounds, time - 1))
    }

    /** The whole discussion is in the thread, after all its turns, and its decision in the log. */
    ghost predicate Agreed(decision: string)
      reads this`asked, this`mine, this`log
    {
      && |asked| == RequiredTurns(options.rounds)
      && Concluded(mine, options, world, decision)
      && exists e :: e in log && e.body == Decision(decision)
    }

    /** The kill-switch check. */
    method Check() returns (failed: Option<Failure>)
      requires OnTrack() && !IsQuestion(options.rounds, time) && !IsRead(options.rounds, time)
      modifies this`time
      ensures time == old(time) + 1
      ensures if failed.None? then OnTrack() else Stopped(failed.value)
    {
      var verdict := world.verdict(time);
      time := time + 1;
      return if verdict.Pass? then None else Some(StepFailed(time - 1, verdict.Halt?));
    }

    method Read() returns (failed: Option<Failure>)
      requires OnTrack() && !IsQuestion(options.rounds, time) && IsRead(options.rounds, time)
      modifies this`time
      ensures time == old(time) + 1
      ensures if failed.None? then OnTrack() else Stopped(failed.value)
    {
      failed := if world.verdict(time).Fault? then Some(StepFailed(time, false)) else None;
      time := time + 1;
    }

    /** emit: the events of other writers that came first, then this one if it is let through. */
    method Append(from: string, to: string, body: Body) returns (r: Result<Event, Failure>)
      requires Valid()
      modifies this`time, this`log, this`mine
      ensures Valid() && time == old(time) + 1
      ensures r.Ok? <==> world.verdict(old(time)).Pass?
      ensures r.Err? ==> r.error == StepFailed(old(time), world.verdict(old(time)).Halt?)
      ensures r.Ok? ==> r.value.from == Trim(from) && r.value.to == Trim(to) && r.value.body == body
      ensures mine == old(mine) + if r.Ok? && InThread(r.value, options.threadId) then [r.value] else []
      ensures r.Ok? ==> r.value in log
      ensures forall e | e in old(log) :: e in log
    {
      var before := log + world.foreign(time);
      ThreadAppend(log, world.foreign(time), options.threadId);
      ForeignThread(world.foreign(time), options.threadId);
      var verdict := world.verdict(time);
      var high := ComputeHighSeq(before);
      var event := Event(high + 1, world.id(time), Trim(from), Trim(to), 0, body);
      log := before;
      time := time + 1;
      if !verdict.Pass? { return Err(StepFailed(time - 1, verdict.Halt?)); }
      ThreadNext(before, event, options.threadId);
      log := before + [event];
      if InThread(event, options.threadId) { mine := mine + [event]; }
      return Ok(event);
    }

    /** An append within the schedule of the run. */
    method Say(from: string, to: string, body: Body) returns (r: Result<Event, Failure>)
      requires Valid() && OnTrack() && !IsQuestion(options.rounds, time) && !IsRead(options.rounds, time)
      modifies this`time, this`log, this`mine
      ensures Valid() && time == old(time) + 1
      ensures if r.Ok? then OnTrack() else mine == old(mine) && Stopped(r.error)
      ensures r.Ok? ==> r.value.from == Trim(from) && r.value.to == Trim(to) && r.value.body == body && r.value in log
      ensures r.Ok? && InThread(r.value, options.threadId) ==> mine == old(mine) + [r.value]
      ensures r.Ok? && !InThread(r.value, options.threadId) ==> mine == old(mine)
      ensures forall e | e in old(log) :: e in log
    {
      r := Append(from, to, body);
    }

    method Ask(role: Role) returns (r: Result<string, Failure>)
      modifies this`time, this`asked
      ensures time == old(time) + 1 && asked == old(asked) + [role]
      ensures r.Ok? <==> ValidReply(world.reply(old(time)))
      ensures r.Ok? ==> r.value == Said(world, old(time))
      ensures r.Err? ==> r.error == StepFailed(old(time), world.reply(old(time)) == Throws(true))
    {
      var reply := world.reply(time);
      time := time + 1;
      asked := asked + [role];
      match reply
      case Throws(halting) => return Err(StepFailed(time - 1, halting));
      case Says(text) =>
        var response := Trim(text);
        if response == "" || |response| > MAX_PUBLIC_RESPONSE { return Err(StepFailed(time - 1, false)); }
        return Ok(response);
    }

    method AskStatement(role: Role) returns (r: Result<string, Failure>)
      requires OnTrack() && IsQuestion(options.rounds, time) && time != 6 * options.rounds + 3
      modifies this`time, this`asked
      ensures time == old(time) + 1 && asked == old(asked) + [role]
      ensures if r.Ok? then OnTrack() && r.value == Said(world, old(time)) else Stopped(r.error)
    {
      r := Ask(role);
    }

    method AskConclusion() returns (r: Result<(string, string), Failure>)
      requires OnTrack() && time == 6 * options.rounds + 3
      modifies this`time, this`asked
      ensures time == old(time) + 1 && asked == old(asked) + [Proposer]
      ensures if r.Ok? then OnTrack() && world.parse(Said(world, old(time))) == Some(r.value) else Stopped(r.error)
    {
      var response := Ask(Proposer);
      if response.Err? { return Err(response.error); }
      var conclusion := world.parse(response.value);
      if conclusion.None? { return Err(StepFailed(time - 1, false)); }
      return Ok(conclusion.value);
    }

    /** The statement of turn j, as a reply to the previous one. */
    method Publish(j: nat, previous: Event, content: string) returns (r: Result<Event, Failure>)
      requires Valid() && OnTrack() && !IsQuestion(options.rounds, time) && !IsRead(options.rounds, time)
      requires content == Said(world, 3 * j + 2)
      modifies this`time, this`log, this`mine
      ensures Valid() && time == old(time) + 1
      ensures if r.Ok? then OnTrack() else mine == old(mine) && Stopped(r.error)
      ensures r.Ok? ==> mine == old(mine) + [r.value]
                        && IsTurn(r.value, options, world, j) && r.value.body.replyTo == Some(previous.id)
    {
      var proposing := j % 2 == 0;
      var kind := if !proposing then Critique else if j == 0 then Proposal else Revision;
      r := Say(if proposing then options.proposer else options.reviewer,
               if proposing then options.reviewer else options.proposer,
               Discussion(options.threadId, kind, j / 2 + 1, content, Some(previous.id), None, None));
    }

    /** Half a round: check, ask, append the statement as a reply to the previous one. */
    method Turn(j: nat, previous: Event) returns (r: Result<Event, Failure>)
      requires Valid() && OnTrack() && time == 1 + 3 * j && j < 2 * options.rounds
      requires Underway(mine, options, world, j) && mine[j] == previous
      requires |asked| == j && Alternating(asked)
      modifies this
      ensures Valid() && Alternating(asked) && j <= |asked| <= j + 1
      ensures r.Ok? ==> OnTrack() && time == old(time) + 3 && |asked| == j + 1
                        && Underway(mine, options, world, j + 1) && mine[j + 1] == r.value
      ensures r.Err? ==> Stopped(r.error) && mine == old(mine) && old(time) < time < old(time) + 4
    {
      TurnSteps(options.rounds, j);
      var halted := Check();
      if halted.Some? { return Err(halted.value); }
      r := Reply(j, previous);
    }

    /** The question and the answer of a turn. */
    method Reply(j: nat, previous: Event) returns (r: Result<Event, Failure>)
      requires Valid() && OnTrack() && time == 2 + 3 * j && j < 2 * options.rounds
      requires Underway(mine, options, world, j) && mine[j] == previous
      requires |asked| == j && Alternating(asked)
      modifies this
      ensures Valid() && Alternating(asked) && j <= |asked| <= j + 1
      ensures r.Ok? ==> OnTrack() && time == old(time) + 2 && |asked| == j + 1
                        && Underway(mine, options, world, j + 1) && mine[j + 1] == r.value
      ensures r.Err? ==> Stopped(r.error) && mine == old(mine) && old(time) < time < old(time) + 3
    {
      TurnSteps(options.rounds, j);
      var proposing := j % 2 == 0;
      var response := AskStatement(if proposing then Proposer else Reviewer);
      if response.Err? { return Err(response.error); }
      r := Publish(j, previous, response.value);
      if r.Ok? {
        UnderwayNext(old(mine), options, world, j, r.value);
      }
    }

    /** recordFailure: an error event and a failed close that replies to the given statement. */
    method RecordFailure(round: nat, previous: Event) returns (failed: Option<Failure>)
      requires Valid()
      modifies this`time, this`log, this`mine
      ensures Valid()
      ensures failed ==
              if !world.verdict(old(time)).Pass?
              then Some(StepFailed(old(time), world.verdict(old(time)).Halt?))
              else if !world.verdict(old(time) + 1).Pass?
              then Some(StepFailed(old(time) + 1, world.verdict(old(time) + 1).Halt?))
              else None
      ensures if failed.None?
              then && |mine| == |old(mine)| + 1 && old(mine) <= mine && IsFailedClose(mine[|old(mine)|], options)
                   && mine[|old(mine)|].body.replyTo == Some(previous.id) && mine[|old(mine)|].body.round == round
              else mine == old(mine)
    {
      ghost var before := mine;
      var notice := Append("loadout", "*", Plain);
      if notice.Err? { return Some(notice.error); }
      var close := Append(options.initiator, "*",
                          Discussion(options.threadId, DiscussionKind.Closed, round, "Discussion stopped",
                                     Some(previous.id), None, Some(DiscussionOutcome.Failed)));
      if close.Err? { return Some(close.error); }
      assert IsFailedClose(close.value, options) && mine == before + [close.value];
      return None;
    }

    /** The last question, after a check and a read of the transcript. */
    method Conclusion() returns (r: Result<(string, string), Failure>)
      requires OnTrack() && time == 1 + 6 * options.rounds
      requires |asked| == 2 * options.rounds && Alternating(asked)
      modifies this`time, this`asked
      ensures Alternating(asked) && |asked| <= RequiredTurns(options.rounds)
      ensures r.Ok? ==> OnTrack() && time == old(time) + 3 && |asked| == RequiredTurns(options.rounds)
                        && world.parse(Said(world, 6 * options.rounds + 3)) == Some(r.value)
      ensures r.Err? ==> Stopped(r.error) && old(time) < time < old(time) + 4
    {
      SynthesisSteps(options.rounds);
      var failed := Check();
      if failed.Some? { return Err(failed.value); }
      failed := Read();
      if failed.Some? { return Err(failed.value); }
      r := AskConclusion();
    }

    /** The synthesis: the last question, then summary, decision and close. */
    method Synthesize(last: Event) returns (r: Result<string, Failure>)
      requires Valid() && OnTrack() && time == 1 + 6 * options.rounds
      requires Underway(mine, options, world, 2 * options.rounds) && mine[2 * options.rounds] == last
      requires |asked| == 2 * options.rounds && Alternating(asked)
      modifies this
      ensures Valid() && Alternating(asked) && |asked| <= RequiredTurns(options.rounds)
      ensures r.Ok? ==> OnTrack() && time == old(time) + 6 && Agreed(r.value)
      ensures r.Err? ==> Stopped(r.error) && Unfinished(mine, options) && old(time) < time < old(time) + 7
    {
      var conclusion := Conclusion();
      if conclusion.Err? {
        StillOpen(mine, options, world, 2 * options.rounds);
        return Err(conclusion.error);
      }
      var (decision, rationale) := conclusion.value;
      r := Conclude(last, decision, rationale);
    }

    method Summarize(last: Event, rationale: string) returns (r: Result<Event, Failure>)
      requires Valid() && OnTrack() && !IsQuestion(options.rounds, time) && !IsRead(options.rounds, time)
      modifies this`time, this`log, this`mine
      ensures Valid() && time == old(time) + 1
      ensures if r.Ok? then OnTrack() else mine == old(mine) && Stopped(r.error)
      ensures r.Ok? ==> IsSummary(r.value, options) && r.value.body.content == rationale
                        && r.value.body.replyTo == Some(last.id)
                        && mine == old(mine) + [r.value]
    {
      r := Say(options.proposer, "*",
               Discussion(options.threadId, DiscussionKind.Summary, options.rounds, rationale, Some(last.id), None,
                          None));
    }

    /** The three appends that end a decided discussion. */
    method Conclude(last: Event, decision: string, rationale: string) returns (r: Result<string, Failure>)
      requires Valid() && OnTrack() && time == 4 + 6 * options.rounds
      requires Underway(mine, options, world, 2 * options.rounds) && mine[2 * options.rounds] == last
      requires world.parse(Said(world, 6 * options.rounds + 3)) == Some((decision, rationale))
      modifies this`time, this`log, this`mine
      ensures Valid()
      ensures r.Ok? ==> OnTrack() && time == old(time) + 3
                        && Concluded(mine, options, world, decision) && r.value == decision
                        && exists e :: e in log && e.body == Decision(decision)
      ensures r.Err? ==> Stopped(r.error) && Unfinished(mine, options) && old(time) < time < old(time) + 4
    {
      var summary := Summarize(last, rationale);
      if summary.Err? {
        StillOpen(mine, options, world, 2 * options.rounds);
        return Err(summary.error);
      }
      SummaryMakesClosable(old(mine), options, world, summary.value, decision);
      r := Finish(summary.value, decision);
    }

    /** What follows the summary. */
    method Finish(summary: Event, decision: string) returns (r: Result<string, Failure>)
      requires Valid() && OnTrack() && time == 5 + 6 * options.rounds
      requires Closable(mine, options, world, summary, decision)
      modifies this`time, this`log, this`mine
      ensures Valid()
      ensures r.Ok? ==> OnTrack() && time == old(time) + 2
                        && Concluded(mine, options, world, decision) && r.value == decision
                        && exists e :: e in log && e.body == Decision(decision)
      ensures r.Err? ==> Stopped(r.error) && Unfinished(mine, options) && old(time) < time < old(time) + 3
    {
      var close := Decide(summary, decision);
      if close.Err? { return Err(close.error); }
      return Ok(decision);
    }

    /** The decision event and the close. */
    method Decide(summary: Event, decision: string) returns (r: Result<Event, Failure>)
      requires Valid() && OnTrack() && time == 5 + 6 * options.rounds
      modifies this`time, this`log, this`mine
      ensures Valid()
      ensures r.Ok? ==> OnTrack() && time == old(time) + 2 && mine == old(mine) + [r.value]
                        && IsDecidedClose(r.value, options, decision) && r.value.body.replyTo == Some(summary.id)
                        && exists e :: e in log && e.body == Decision(decision)
      ensures r.Err? ==> Stopped(r.error) && mine == old(mine) && old(time) < time < old(time) + 3
    {
      SynthesisSteps(options.rounds);
      var recorded := Say(options.proposer, "*", Decision(decision));
      if recorded.Err? { return Err(recorded.error); }
      r := Say(options.initiator, "*",
               Discussion(options.threadId, DiscussionKind.Closed, options.rounds, decision, Some(summary.id), None,
                          Some(DiscussionOutcome.Decided)));
    }

    /** The rounds: a proposer turn, then a reviewer turn, until one of them fails. */
    method Rounds(start: Event) returns (failure: Option<Failure>, round: nat, previous: Event)
      requires Valid() && OnTrack() && time == 1 && asked == [] && mine == [start] && IsStart(start, options)
      modifies this
      ensures Valid() && Alternating(asked) && |asked| <= 2 * options.rounds && round <= options.rounds
      ensures failure.None? ==> OnTrack() && time == 1 + 6 * options.rounds && |asked| == 2 * options.rounds
                                && Underway(mine, options, world, 2 * options.rounds)
                                    && mine[2 * options.rounds] == previous
      ensures failure.Some? ==> Stopped(failure.value) && 1 < time <= 1 + 6 * options.rounds
                                && Unfinished(mine, options) && round == RoundOf(options.rounds, time - 1)
      ensures failure.None? ==> round == options.rounds
    {
      failure, round, previous := None, 0, start;
      while round < options.rounds && failure.None?
        invariant 0 <= round <= options.rounds
        invariant Valid() && Alternating(asked) && |asked| <= 2 * round
        invariant failure.None? ==> OnTrack() && time == 1 + 6 * round && |asked| == 2 * round
                                    && Underway(mine, options, world, 2 * round) && mine[2 * round] == previous
        invariant failure.Some? ==> Stopped(failure.value) && 1 < time <= 1 + 6 * options.rounds
                                    && Unfinished(mine, options) && round == RoundOf(options.rounds, time - 1)
        decreases options.rounds - round
      {
        StillOpen(mine, options, world, 2 * round);
        var proposal := Turn(2 * round, previous);
        if proposal.Err? {
          failure := Some(proposal.error);
        } else {
          previous := proposal.value;
          StillOpen(mine, options, world, 2 * round + 1);
          var critique := Turn(2 * round + 1, previous);
          if critique.Err? { failure := Some(critique.error); } else { previous := critique.value; }
        }
        round := round + 1;
      }
    }

    /** The guarded part of a run: all rounds, the synthesis, and a last read of the log. */
    method Converse(start: Event) returns (r: Result<string, Failure>, round: nat, previous: Event)
      requires Valid() && OnTrack() && time == 1 && asked == [] && mine == [start] && IsStart(start, options)
      modifies this
      ensures Valid() && Alternating(asked) && |asked| <= RequiredTurns(options.rounds)
      ensures r.Ok? ==> OutcomeIs(r, false, world, options.rounds) && Agreed(r.value)
      ensures r.Err? ==> Stopped(r.error) && 1 < time <= 6 * options.rounds + 8
                         && round == RoundOf(options.rounds, time - 1)
                         && (if time <= 6 * options.rounds + 7 then Unfinished(mine, options)
                             else exists d :: Concluded(mine, options, world, d))
    {
      var failure;
      failure, round, previous := Rounds(start);
      if failure.Some? { return Err(failure.value), round, previous; }
      r := Synthesize(previous);
      if r.Err? { return; }
      SynthesisSteps(options.rounds);
      var unread := Read();
      if unread.Some? { return Err(unread.value), round, previous; }
    }

    /** Every error but a halt is recorded, and an error of the recording takes its place. */
    method Recover(failure: Failure, round: nat, previous: Event) returns (thrown: Failure, recorded: bool)
      requires Valid() && Stopped(failure) && 1 < time && round == RoundOf(options.rounds, time - 1)
      modifies this`time, this`log, this`mine
      ensures Valid()
      ensures thrown == Thrown(world, options.rounds, old(time) - 1)
      ensures recorded <==> Recorded(world, options.rounds, old(time) - 1)
      ensures if recorded
              then EndsFailed(mine, options, world) && exists e :: IsFailedClose(e, options) && mine == old(mine) + [e]
              else mine == old(mine)
    {
      ghost var k := time - 1;
      thrown, recorded := failure, false;
      if !failure.halting {
        var failed := RecordFailure(round, previous);
        if failed.Some? {
          thrown := failed.value;
        } else {
          recorded := true;
          FailedEnds(mine, options, world, k, round);
        }
      }
    }

    /** The error path of a run that started. */
    method Settle(failure: Failure, round: nat, previous: Event) returns (thrown: Failure, recorded: bool)
      requires Valid() && Stopped(failure) && 1 < time <= 6 * options.rounds + 8
      requires round == RoundOf(options.rounds, time - 1)
      requires if time <= 6 * options.rounds + 7 then Unfinished(mine, options)
               else exists d :: Concluded(mine, options, world, d)
      modifies this`time, this`log, this`mine
      ensures Valid() && OutcomeIs(Err(thrown), recorded, world, options.rounds)
      ensures recorded ==> EndsFailed(mine, options, world)
      ensures base == [] ==> StatusIs(Build(log, options.threadId), world, options, recorded)
    {
      ghost var before, k := mine, time - 1;
      thrown, recorded := Recover(failure, round, previous);
      if base == [] {
        assert Thread(log, options.threadId) == mine;
        FailureBuild(log, world, options, before, k, recorded);
      }
      FailedOutcome(thrown, recorded, world, options.rounds, k);
    }

    /** What a completed call with valid options leaves behind. */
    ghost predicate Finished(r: Result<string, Failure>, recorded: bool)
      requires ValidOptions(options)
      reads this
    {
      // The outcome is decided by the first step that does not pass, if there is one.
      && OutcomeIs(r, recorded, world, options.rounds)
      // Questions alternate and stay within the paid bound.
      && Alternating(asked) && |asked| <= RequiredTurns(options.rounds) <= options.maxTurns
      && (r.Ok? ==> Agreed(r.value))
      && (recorded ==> EndsFailed(mine, options, world))
      // A new thread reads back with the status that the outcome calls for.
      && (base == [] ==> StatusIs(Build(log, options.threadId), world, options, recorded))
    }

    /** runDiscussion. */
    method Run() returns (r: Result<string, Failure>, recorded: bool)
      requires Valid() && time == 0 && asked == [] && mine == []
      modifies this
      ensures Valid()
      ensures if ValidOptions(options) then Finished(r, recorded)
              else r == Err(InvalidOptions) && !recorded && asked == [] && log == old(log)
    {
      recorded := false;
      if !ValidOptions(options) {
        return Err(InvalidOptions), false;
      }
      assert !IsQuestion(options.rounds, 0) && !IsRead(options.rounds, 0);
      var start := Say(options.initiator, "*",
                       Discussion(options.threadId, Started, 0, Trim(options.topic), None,
                                  Some((Trim(options.proposer), Trim(options.reviewer))), None));
      if start.Err? {
        r := Err(start.error);
        FailedOutcome(start.error, false, world, options.rounds, 0);
        assert Thread(log, options.threadId) == base;
        return;
      }
      r, recorded := Proceed(start.value);
    }

    /** A run from its start event on. */
    method Proceed(start: Event) returns (r: Result<string, Failure>, recorded: bool)
      requires Valid() && OnTrack() && ValidOptions(options)
      requires time == 1 && asked == [] && mine == [start] && IsStart(start, options)
      modifies this
      ensures Valid() && Finished(r, recorded)
    {
      var round, previous;
      r, round, previous := Converse(start);
      recorded := false;
      if r.Err? {
        var thrown;
        thrown, recorded := Settle(r.error, round, previous);
        r := Err(thrown);
      } else if base == [] {
        assert Thread(log, options.threadId) == mine;
        ConcludedBuild(log, world, options, r.value);
      }
    }
  }
}
