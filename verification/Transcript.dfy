/** A concluded discussion, statement by statement. */
module Transcript {
  import opened Wrappers
  import opened Strings
  import opened Events
  import opened Discussion

  /** The texts that a public answer may have. */
  predicate Answered(reply: Reply) {
    match reply
    case Says(text) => Trim(text) != "" && |Trim(text)| <= 16_384
    case Throws(_) => false
  }

  lemma {:induction false} AnsweredExactly(w: World, k: nat)
    ensures ValidReply(w.reply(k)) <==> Answered(w.reply(k))
    ensures w.reply(k).Says? ==> Said(w, k) == Trim(w.reply(k).text)
  {
  }

  /** The options that are refused: no topic or too long a one, no participant, one name for both, roles
      out of place, no or more than eight rounds, or fewer turns than two a round and one. */
  lemma {:induction false} RefusedExactly(o: Options)
    ensures !ValidOptions(o) <==>
              || Trim(o.topic) == "" || |o.topic| > 8192
              || Trim(o.proposer) == "" || Trim(o.reviewer) == "" || o.proposer == o.reviewer
              || !o.proposerRole.Proposer? || !o.reviewerRole.Reviewer?
              || o.rounds < 1 || o.rounds > 8 || o.maxTurns < 2 * o.rounds + 1
  {
  }

  /** A statement of a discussion in full. */
  predicate States(e: Event, o: Options, from: string, to: string, kind: DiscussionKind, round: int, text: string) {
    && e.from == from && e.to == to
    && e.body.Discussion? && e.body.threadId == o.threadId && e.body.kind == kind && e.body.round == round
    && e.body.content == text
  }

  lemma {:induction false} TurnStates(e: Event, o: Options, w: World, j: nat)
    requires IsTurn(e, o, w, j) && w.reply(3 * j + 2).Says?
    ensures States(e, o, if j % 2 == 0 then Trim(o.proposer) else Trim(o.reviewer),
                   if j % 2 == 0 then Trim(o.reviewer) else Trim(o.proposer),
                   if j % 2 == 1 then Critique else if j == 0 then Proposal else Revision, j / 2 + 1,
                   Trim(w.reply(3 * j + 2).text))
  {
    AnsweredExactly(w, 3 * j + 2);
  }

  /** Proposals and critiques alternate between the participants, in rounds of two, each with the
      trimmed answer to its question. */
  lemma {:induction false} RoundReads(mine: seq<Event>, o: Options, w: World, decision: string, i: nat)
    requires Concluded(mine, o, w, decision) && i < o.rounds
    requires w.reply(6 * i + 2).Says? && w.reply(6 * i + 5).Says?
    ensures States(mine[2 * i + 1], o, Trim(o.proposer), Trim(o.reviewer), if i == 0 then Proposal else Revision, i + 1,
                   Trim(w.reply(6 * i + 2).text))
    ensures States(mine[2 * i + 2], o, Trim(o.reviewer), Trim(o.proposer), Critique, i + 1,
                   Trim(w.reply(6 * i + 5).text))
  {
    ProposalReads(mine, o, w, i);
    CritiqueReads(mine, o, w, i);
  }

  lemma {:induction false} ProposalReads(mine: seq<Event>, o: Options, w: World, i: nat)
    requires o.rounds >= 0 && Turns(mine, o, w, 2 * o.rounds) && i < o.rounds && w.reply(6 * i + 2).Says?
    ensures States(mine[2 * i + 1], o, Trim(o.proposer), Trim(o.reviewer), if i == 0 then Proposal else Revision, i + 1,
                   Trim(w.reply(6 * i + 2).text))
  {
    TurnAt(mine, o, w, 2 * o.rounds, 2 * i);
    TurnStates(mine[2 * i + 1], o, w, 2 * i);
  }

  lemma {:induction false} CritiqueReads(mine: seq<Event>, o: Options, w: World, i: nat)
    requires o.rounds >= 0 && Turns(mine, o, w, 2 * o.rounds) && i < o.rounds && w.reply(6 * i + 5).Says?
    ensures States(mine[2 * i + 2], o, Trim(o.reviewer), Trim(o.proposer), Critique, i + 1,
                   Trim(w.reply(6 * i + 5).text))
  {
    TurnAt(mine, o, w, 2 * o.rounds, 2 * i + 1);
    TurnStates(mine[2 * i + 2], o, w, 2 * i + 1);
  }

  lemma {:induction false} TurnAt(mine: seq<Event>, o: Options, w: World, turns: nat, j: nat)
    requires Turns(mine, o, w, turns) && j < turns
    ensures IsTurn(mine[j + 1], o, w, j)
  {
  }

  /** The rounds stand between the start and a summary and a close, and all reply to the one before. */
  lemma {:induction false} FrameReads(mine: seq<Event>, o: Options, w: World, decision: string)
    requires Concluded(mine, o, w, decision)
    ensures |mine| == 2 * o.rounds + 3
    ensures States(mine[0], o, Trim(o.initiator), "*", Started, 0, Trim(o.topic))
    ensures mine[0].body.participants == Some((Trim(o.proposer), Trim(o.reviewer)))
    ensures var summary := mine[2 * o.rounds + 1];
            States(summary, o, Trim(o.proposer), "*", DiscussionKind.Summary, o.rounds, summary.body.content)
    ensures var close := mine[2 * o.rounds + 2];
            && States(close, o, Trim(o.initiator), "*", DiscussionKind.Closed, o.rounds, decision)
            && close.body.outcome == Some(DiscussionOutcome.Decided)
    ensures forall i | 0 < i < |mine| :: mine[i].body.Discussion? && mine[i].body.replyTo == Some(mine[i - 1].id)
  {
  }

  /** A discussion whose failure is recorded ends in a failed close by the initiator, in the round that
      failed: six steps to a round, and what comes after the rounds counts as the last one. */
  lemma {:induction false} FailureReads(mine: seq<Event>, o: Options, w: World)
    requires EndsFailed(mine, o, w)
    ensures var close := mine[|mine| - 1];
            && close.body.Discussion? && close.body.outcome == Some(DiscussionOutcome.Failed)
            && exists k: nat :: StopsAt(w, o.rounds, k)
                 && States(close, o, Trim(o.initiator), "*", DiscussionKind.Closed,
                           if 1 <= k <= 6 * o.rounds then (k + 5) / 6 else o.rounds, close.body.content)
  {
    var close := mine[|mine| - 1];
    var k: nat :| StopsAt(w, o.rounds, k) && close.body.round == RoundOf(o.rounds, k);
    if k >= 1 { SixSteps(k); }
  }

  lemma {:induction false} SixSteps(k: nat)
    requires k >= 1
    ensures (k - 1) / 6 + 1 == (k + 5) / 6
  {
  }
}
