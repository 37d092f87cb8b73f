/** From a closed discussion to handoff tasks: grouping the mentioned paths by owner, and
    dispatching the resulting plan so that a failed dispatch can be repeated. */
module Pipeline {
  import opened Wrappers
  import opened Strings
  import D = Discussion

  datatype ImplementationTask = ImplementationTask(agent: string, description: string, context: string,
                                                   paths: seq<string>)

  datatype Plan = Plan(planId: string, threadId: string, decision: string, tasks: seq<ImplementationTask>,
                       unassigned: seq<string>)

  ghost predicate DistinctAgents(tasks: seq<ImplementationTask>) {
    forall i, j | 0 <= i < j < |tasks| :: tasks[i].agent != tasks[j].agent
  }

  // ---- Building a plan ----

  datatype PlanError = NotFound | NotClosed | NoDecision

  /** The texts of a plan, which its structure does not depend on. */
  datatype Texts = Texts(describe: (string, seq<string>) -> string, implement: string -> string,
                         review: string -> string,
                         context: string, identify: (string, string, seq<ImplementationTask>) -> string)

  /** The mentioned paths with the given owner, in the order of mention. */
  function OwnedBy(mentioned: seq<string>, owner: string -> Option<string>, who: Option<string>): seq<string> {
    if mentioned == [] then []
    else
      var last := mentioned[|mentioned| - 1];
      OwnedBy(mentioned[..|mentioned| - 1], owner, who) + if owner(last) == who then [last] else []
  }

  /** The owners of the mentioned paths, in the order of their first path. */
  function Owners(mentioned: seq<string>, owner: string -> Option<string>): (agents: seq<string>)
    ensures forall a :: a in agents <==> exists p :: p in mentioned && owner(p) == Some(a)
    ensures forall i, j | 0 <= i < j < |agents| :: agents[i] != agents[j]
  {
    if mentioned == [] then []
    else
      var init, last := mentioned[..|mentioned| - 1], mentioned[|mentioned| - 1];
      var agents := Owners(init, owner);
      assert mentioned == init + [last];
      match owner(last)
      case None => agents
      case Some(a) => if a in agents then agents else agents + [a]
  }

  /** The loop that groups the mentioned paths by owner. */
  method GroupByOwner(mentioned: seq<string>, owner: string -> Option<string>)
    returns (agents: seq<string>, paths: map<string, seq<string>>, unassigned: seq<string>)
    ensures agents == Owners(mentioned, owner)
    ensures forall a :: a in paths <==> a in agents
    ensures forall a | a in paths :: paths[a] == OwnedBy(mentioned, owner, Some(a))
    ensures unassigned == OwnedBy(mentioned, owner, None)
  {
    agents, paths, unassigned := [], map[], [];
    for i := 0 to |mentioned|
      invariant agents == Owners(mentioned[..i], owner)
      invariant forall a :: a in paths <==> a in agents
      invariant forall a | a in paths :: paths[a] == OwnedBy(mentioned[..i], owner, Some(a))
      invariant unassigned == OwnedBy(mentioned[..i], owner, None)
    {
      assert mentioned[..i + 1][..i] == mentioned[..i];
      match owner(mentioned[i])
      case None => unassigned := unassigned + [mentioned[i]];
      case Some(a) =>
        if a !in agents {
          NothingOwned(mentioned[..i], owner, a);
          agents := agents + [a];
        }
        paths := paths[a := (if a in paths then paths[a] else []) + [mentioned[i]]];
    }
    assert mentioned[..|mentioned|] == mentioned;
  }

  lemma {:induction false} NothingOwned(mentioned: seq<string>, owner: string -> Option<string>, a: string)
    requires a !in Owners(mentioned, owner)
    ensures OwnedBy(mentioned, owner, Some(a)) == []
  {
    if mentioned != [] {
      NothingOwned(mentioned[..|mentioned| - 1], owner, a);
    }
  }

  /** The paths of an owner come in the order in which they were mentioned. */
  lemma {:induction false} OwnedInOrder(mentioned: seq<string>, owner: string -> Option<string>, who: Option<string>)
    returns (at: seq<nat>)
    ensures |at| == |OwnedBy(mentioned, owner, who)|
    ensures forall i | 0 <= i < |at| :: at[i] < |mentioned| && OwnedBy(mentioned, owner, who)[i] == mentioned[at[i]]
    ensures forall i, j | 0 <= i < j < |at| :: at[i] < at[j]
  {
    if mentioned == [] {
      at := [];
    } else {
      at := OwnedInOrder(mentioned[..|mentioned| - 1], owner, who);
      if owner(mentioned[|mentioned| - 1]) == who { at := at + [|mentioned| - 1]; }
    }
  }

  /** The agent's first path is the one at k. */
  ghost predicate FirstAt(mentioned: seq<string>, owner: string -> Option<string>, a: string, k: int) {
    && 0 <= k < |mentioned| && owner(mentioned[k]) == Some(a)
    && forall j | 0 <= j < k :: owner(mentioned[j]) != Some(a)
  }

  lemma {:induction false} FirstStays(init: seq<string>, last: string, owner: string -> Option<string>, a: string,
                                      k: int)
    requires FirstAt(init, owner, a, k)
    ensures FirstAt(init + [last], owner, a, k)
  {
  }

  lemma {:induction false} FirstIsLast(init: seq<string>, last: string, owner: string -> Option<string>, a: string)
    requires a !in Owners(init, owner) && owner(last) == Some(a)
    ensures FirstAt(init + [last], owner, a, |init|)
  {
    forall j | 0 <= j < |init| ensures owner((init + [last])[j]) != Some(a) {
      assert (init + [last])[j] == init[j] && init[j] in init;
    }
  }

  /** And the owners in the order of their first paths. */
  lemma {:induction false} OwnersInOrder(mentioned: seq<string>, owner: string -> Option<string>) returns (at: seq<nat>)
    ensures |at| == |Owners(mentioned, owner)|
    ensures forall i | 0 <= i < |at| :: FirstAt(mentioned, owner, Owners(mentioned, owner)[i], at[i])
    ensures forall i, j | 0 <= i < j < |at| :: at[i] < at[j]
  {
    if mentioned == [] {
      at := [];
    } else {
      var init, last := mentioned[..|mentioned| - 1], mentioned[|mentioned| - 1];
      assert mentioned == init + [last];
      at := OwnersInOrder(init, owner);
      var before := at;
      forall i | 0 <= i < |before| ensures FirstAt(mentioned, owner, Owners(init, owner)[i], before[i]) {
        FirstStays(init, last, owner, Owners(init, owner)[i], before[i]);
      }
      if owner(last).Some? && owner(last).value !in Owners(init, owner) {
        FirstIsLast(init, last, owner, owner(last).value);
        at := before + [|init|];
      }
    }
  }

  method AssignTasks(decision: string, participants: (string, string), agents: seq<string>,
                     paths: map<string, seq<string>>, texts: Texts)
    returns (tasks: seq<ImplementationTask>)
    requires forall a | a in agents :: a in paths
    ensures agents == [] ==>
              tasks == [ImplementationTask(participants.0, texts.implement(decision), texts.context, []),
                        ImplementationTask(participants.1, texts.review(decision), texts.context, [])]
    ensures agents != [] ==>
              && |tasks| == |agents|
              && forall k | 0 <= k < |tasks| ::
                   tasks[k] == ImplementationTask(agents[k], texts.describe(decision, paths[agents[k]]), texts.context,
                                                  paths[agents[k]])
  {
    if agents == [] {
      return [ImplementationTask(participants.0, texts.implement(decision), texts.context, []),
              ImplementationTask(participants.1, texts.review(decision), texts.context, [])];
    }
    tasks := [];
    for i := 0 to |agents|
      invariant |tasks| == i
      invariant forall k | 0 <= k < i ::
                  tasks[k] == ImplementationTask(agents[k], texts.describe(decision, paths[agents[k]]), texts.context,
                                                 paths[agents[k]])
    {
      tasks := tasks + [ImplementationTask(agents[i], texts.describe(decision, paths[agents[i]]), texts.context,
                                           paths[agents[i]])];
    }
  }

  /** buildImplementationPlan, given the discussion, the paths it mentions and their owners. */
  method BuildPlan(threadId: string, discussion: Option<D.DiscussionState>, mentioned: seq<string>,
                   owner: string -> Option<string>, texts: Texts)
    returns (r: Result<Plan, PlanError>)
    ensures r.Ok? <==> discussion.Some? && discussion.value.status.Closed?
                       && discussion.value.finalDecision.Some? && discussion.value.finalDecision.value != ""
    ensures r.Ok? ==>
              && r.value.threadId == threadId && Some(r.value.decision) == discussion.value.finalDecision
              && r.value.planId == texts.identify(threadId, r.value.decision, r.value.tasks)
              && r.value.unassigned == OwnedBy(mentioned, owner, None)
              && PlanTasks(r.value.tasks, r.value.decision, discussion.value.participants, mentioned, owner, texts)
  {
    if discussion.None? { return Err(NotFound); }
    if !discussion.value.status.Closed? { return Err(NotClosed); }
    if discussion.value.finalDecision.None? || discussion.value.finalDecision.value == "" { return Err(NoDecision); }
    var decision := discussion.value.finalDecision.value;
    var agents, paths, unassigned := GroupByOwner(mentioned, owner);
    var tasks := AssignTasks(decision, discussion.value.participants, agents, paths, texts);
    return Ok(Plan(texts.identify(threadId, decision, tasks), threadId, decision, tasks, unassigned));
  }

  /** One task for each owner with exactly its paths; without any owner, one task for each participant. */
  ghost predicate PlanTasks(tasks: seq<ImplementationTask>, decision: string, participants: (string, string),
                            mentioned: seq<string>, owner: string -> Option<string>, texts: Texts)
  {
    var agents := Owners(mentioned, owner);
    if agents == [] then
      tasks == [ImplementationTask(participants.0, texts.implement(decision), texts.context, []),
                ImplementationTask(participants.1, texts.review(decision), texts.context, [])]
    else
      && |tasks| == |agents|
      && forall i | 0 <= i < |tasks| ::
           && tasks[i].agent == agents[i] && tasks[i].paths == OwnedBy(mentioned, owner, Some(agents[i]))
           && tasks[i].description == texts.describe(decision, tasks[i].paths) && tasks[i].context == texts.context
  }

  lemma {:induction false} OwnedByCounts(mentioned: seq<string>, owner: string -> Option<string>, who: Option<string>,
                                         p: string)
    ensures multiset(OwnedBy(mentioned, owner, who))[p] == if owner(p) == who then multiset(mentioned)[p] else 0
  {
    if mentioned != [] {
      var init, last := mentioned[..|mentioned| - 1], mentioned[|mentioned| - 1];
      OwnedByCounts(init, owner, who, p);
      assert mentioned == init + [last];
      assert OwnedBy(mentioned, owner, who) == OwnedBy(init, owner, who) + if owner(last) == who then [last] else [];
    }
  }

  /** No path is lost, doubled or given to a second agent: a mentioned path is unassigned, or it
      is in exactly one task, its owner's, as often as it was mentioned. */
  lemma {:induction false} PathsConserved(tasks: seq<ImplementationTask>, unassigned: seq<string>, decision: string,
                                          participants: (string, string),
                       mentioned: seq<string>, owner: string -> Option<string>, texts: Texts, p: string)
    requires PlanTasks(tasks, decision, participants, mentioned, owner, texts)
    requires unassigned == OwnedBy(mentioned, owner, None)
    requires p in mentioned
    ensures owner(p).None? ==> multiset(unassigned)[p] == multiset(mentioned)[p]
                               && forall t | t in tasks :: p !in t.paths
    ensures owner(p).Some? ==>
              && p !in unassigned
              && exists i :: 0 <= i < |tasks| && tasks[i].agent == owner(p).value
                             && multiset(tasks[i].paths)[p] == multiset(mentioned)[p]
                             && forall j | 0 <= j < |tasks| && j != i :: p !in tasks[j].paths
  {
    OwnedByCounts(mentioned, owner, None, p);
    assert p in unassigned <==> multiset(unassigned)[p] > 0;
    assert p in mentioned <==> multiset(mentioned)[p] > 0;
    forall j | 0 <= j < |tasks| ensures p in tasks[j].paths <==> owner(p) == Some(tasks[j].agent) {
      TaskShare(tasks, decision, participants, mentioned, owner, texts, p, j);
    }
    if owner(p).Some? {
      var agents := Owners(mentioned, owner);
      assert owner(p).value in agents;
      var i :| 0 <= i < |agents| && agents[i] == owner(p).value;
      TaskShare(tasks, decision, participants, mentioned, owner, texts, p, i);
    }
  }

  lemma {:induction false} TaskShare(tasks: seq<ImplementationTask>, decision: string, participants: (string, string),
                  mentioned: seq<string>, owner: string -> Option<string>, texts: Texts, p: string, i: nat)
    requires PlanTasks(tasks, decision, participants, mentioned, owner, texts)
    requires p in mentioned && i < |tasks|
    ensures multiset(tasks[i].paths)[p] == if owner(p) == Some(tasks[i].agent) then multiset(mentioned)[p] else 0
    ensures p in tasks[i].paths <==> owner(p) == Some(tasks[i].agent)
    ensures Owners(mentioned, owner) != [] ==>
              |tasks| == |Owners(mentioned, owner)| && tasks[i].agent == Owners(mentioned, owner)[i]
  {
    var agents := Owners(mentioned, owner);
    assert p in tasks[i].paths <==> multiset(tasks[i].paths)[p] > 0;
    assert p in mentioned <==> multiset(mentioned)[p] > 0;
    if agents != [] {
      OwnedByCounts(mentioned, owner, Some(agents[i]), p);
    } else {
      forall a ensures owner(p) != Some(a) { assert a !in agents; }
    }
  }

  /** A plan names every agent once, unless nobody owns a path and the participants coincide. */
  lemma {:induction false} PlanAgentsDistinctExactly(tasks: seq<ImplementationTask>, decision: string,
                                                     participants: (string, string),
                                  mentioned: seq<string>, owner: string -> Option<string>, texts: Texts)
    requires PlanTasks(tasks, decision, participants, mentioned, owner, texts)
    ensures DistinctAgents(tasks) <==>
              (exists p :: p in mentioned && owner(p).Some?) || participants.0 != participants.1
  {
    var agents := Owners(mentioned, owner);
    if agents != [] {
      assert agents[0] in agents;
    } else {
      assert tasks[0].agent == participants.0 && tasks[1].agent == participants.1;
      forall p | p in mentioned ensures owner(p).None? {
        forall a ensures owner(p) != Some(a) { assert a !in agents; }
      }
    }
  }

  /** Participants are told apart before their names are trimmed, and recorded trimmed. */
  lemma {:induction false} ParticipantsCanCoincide() returns (o: D.Options)
    ensures D.ValidOptions(o) && Trim(o.proposer) == Trim(o.reviewer)
  {
    o := D.Options("t", "a", "a ", D.Role.Proposer, D.Role.Reviewer, 1, 3, "x", "user");
    assert Trim("t") == "t" && Trim("a") == "a" && Trim("a ") == "a";
  }

  // ---- Dispatching ----

  datatype Message = Message(id: string, isTask: bool, to: string, description: string, context: Option<string>)

  predicate Contains(s: string, t: string) {
    exists i | 0 <= i <= |s| :: t <= s[i..]
  }

  function Marker(planId: string): string {
    "[loadout-implementation:" + planId + "]"
  }

  function Notice(planId: string): string {
    "Implementation plan " + planId + " dispatched"
  }

  /** How a task of a plan is recognised later. */
  predicate Matches(m: Message, agent: string, marker: string) {
    m.isTask && m.to == agent && m.context.Some? && Contains(m.context.value, marker)
  }

  predicate Reached(messages: seq<Message>, agent: string, marker: string) {
    exists m | m in messages :: Matches(m, agent, marker)
  }

  function MessageFor(task: ImplementationTask, marker: string, id: string): Message {
    Message(id, true, task.agent, task.description, Some(marker + "\n" + task.context))
  }

  /** The tasks of a plan that have no message yet. */
  function Pending(tasks: seq<ImplementationTask>, messages: seq<Message>, marker: string): seq<ImplementationTask> {
    if tasks == [] then []
    else
      var last := tasks[|tasks| - 1];
      Pending(tasks[..|tasks| - 1], messages, marker) + if Reached(messages, last.agent, marker) then [] else [last]
  }

  /** How many of n sends succeed before the first that does not. */
  function Progress(sends: nat -> bool, n: nat): (k: nat)
    ensures k <= n && (forall i: nat | i < k :: sends(i)) && (k < n ==> !sends(k))
  {
    if n == 0 then 0
    else
      var k := Progress(sends, n - 1);
      if k == n - 1 && sends(n - 1) then n else k
  }

  function Delivered(tasks: seq<ImplementationTask>, marker: string, ids: nat -> string): seq<Message> {
    seq(|tasks|, i requires 0 <= i < |tasks| => MessageFor(tasks[i], marker, ids(i)))
  }

  lemma {:induction false} SentTaskMatches(task: ImplementationTask, marker: string, id: string)
    ensures Matches(MessageFor(task, marker, id), task.agent, marker)
  {
    var context := marker + "\n" + task.context;
    assert context[0..] == context && marker <= context;
  }

  datatype Report = Report(sent: nat, handoffIds: seq<string>)

  datatype DispatchError = Unassigned(paths: seq<string>) | SendFailed | EmitFailed

  /** The handoff messages, and the descriptions of the coordination events. */
  class HandoffStore {
    var messages: seq<Message>
    var notices: seq<string>

    constructor ()
      ensures messages == [] && notices == []
    {
      messages, notices := [], [];
    }

    /** executeImplementationPlan, which holds the handoff lock throughout. Which sends succeed,
        and whether the final event can be emitted, is up to the environment. */
    method Execute(plan: Plan, sends: nat -> bool, ids: nat -> string, emits: bool)
      returns (r: Result<Report, DispatchError>)
      modifies this
      ensures plan.unassigned != [] ==>
                r == Err(Unassigned(plan.unassigned)) && messages == old(messages) && notices == old(notices)
      ensures plan.unassigned == [] ==> messages == Attempted(old(messages), plan, sends, ids)
      ensures plan.unassigned == [] ==>
                (r.Ok? <==> Completes(old(messages), plan, sends) && (Notice(plan.planId) in old(notices) || emits))
      ensures notices == old(notices)
                         + if r.Ok? && Notice(plan.planId) !in old(notices) then [Notice(plan.planId)] else []
      ensures r.Ok? ==> ("Implementation plan " + plan.planId + " dispatched") in notices
      ensures r.Ok? ==>
                && r.value.sent == |Pending(plan.tasks, old(messages), Marker(plan.planId))|
                && Credited(messages, plan.tasks, r.value.handoffIds, Marker(plan.planId))
    {
      if plan.unassigned != [] {
        return Err(Unassigned(plan.unassigned));
      }
      r := SendTasks(plan.tasks, Marker(plan.planId), sends, ids);
      if r.Err? { return; }
      if Notice(plan.planId) !in notices {
        if !emits { return Err(EmitFailed); }
        notices := notices + [Notice(plan.planId)];
      }
    }

    /** The dispatch loop. */
    method SendTasks(tasks: seq<ImplementationTask>, marker: string, sends: nat -> bool, ids: nat -> string)
      returns (r: Result<Report, DispatchError>)
      modifies this`messages
      ensures var pending := Pending(tasks, old(messages), marker);
              var done := Progress(sends, |pending|);
              && messages == old(messages) + Delivered(pending[..done], marker, ids)
              && (r.Ok? <==> done == |pending|)
              && (r.Ok? ==> r.value.sent == done && Credited(messages, tasks, r.value.handoffIds, marker))
    {
      var initial := messages;
      var sent, handoffIds := 0, [];
      for i := 0 to |tasks|
        invariant Sending(initial, tasks, i, marker, sends, ids, sent, messages)
        invariant Credited(messages, tasks[..i], handoffIds, marker)
      {
        var existing := Find(initial, tasks[i].agent, marker);
        SendingNext(initial, tasks, i, marker, sends, ids, sent, messages);
        if existing.Some? {
          CreditedFound(messages, tasks, i, handoffIds, marker, existing.value);
          handoffIds := handoffIds + [existing.value.id];
          continue;
        }
        if !sends(sent) {
          return Err(SendFailed);
        }
        var message := MessageFor(tasks[i], marker, ids(sent));
        CreditedSent(messages, tasks, i, handoffIds, marker, ids(sent));
        messages := messages + [message];
        handoffIds := handoffIds + [message.id];
        sent := sent + 1;
      }
      assert tasks[..|tasks|] == tasks;
      SendingDone(initial, tasks, marker, sends, ids, sent, messages);
      return Ok(Report(sent, handoffIds));
    }
  }

  /** The dispatch loop before task i: every pending task so far has been sent, and nothing else. */
  ghost predicate Sending(initial: seq<Message>, tasks: seq<ImplementationTask>, i: nat, marker: string,
                          sends: nat -> bool, ids: nat -> string, sent: nat, messages: seq<Message>)
    requires i <= |tasks|
  {
    var pending := Pending(tasks, initial, marker);
    && sent <= |pending| && Pending(tasks[..i], initial, marker) == pending[..sent]
    && (forall k: nat | k < sent :: sends(k))
    && messages == initial + Delivered(pending[..sent], marker, ids)
    && initial <= messages
  }

  lemma {:induction false} SendingNext(initial: seq<Message>, tasks: seq<ImplementationTask>, i: nat, marker: string,
                    sends: nat -> bool, ids: nat -> string, sent: nat, messages: seq<Message>)
    requires i < |tasks| && Sending(initial, tasks, i, marker, sends, ids, sent, messages)
    ensures if Reached(initial, tasks[i].agent, marker)
            then Sending(initial, tasks, i + 1, marker, sends, ids, sent, messages)
            else if sends(sent)
            then Sending(initial, tasks, i + 1, marker, sends, ids, sent + 1,
                         messages + [MessageFor(tasks[i], marker, ids(sent))])
            else var pending := Pending(tasks, initial, marker);
                 && sent < |pending| && Progress(sends, |pending|) == sent
                 && messages == initial + Delivered(pending[..sent], marker, ids)
    ensures forall m | m in initial :: m in messages
  {
    var pending := Pending(tasks, initial, marker);
    PendingNext(tasks, i, initial, marker, sent);
    if !Reached(initial, tasks[i].agent, marker) {
      DeliveredNext(initial, pending, sent, marker, ids);
      if !sends(sent) { ProgressStops(sends, |pending|, sent); }
    }
  }

  lemma {:induction false} SendingDone(initial: seq<Message>, tasks: seq<ImplementationTask>, marker: string,
                    sends: nat -> bool, ids: nat -> string, sent: nat, messages: seq<Message>)
    requires Sending(initial, tasks, |tasks|, marker, sends, ids, sent, messages)
    ensures var pending := Pending(tasks, initial, marker);
            && sent == |pending| == Progress(sends, |pending|)
            && messages == initial + Delivered(pending[..sent], marker, ids)
  {
    assert tasks[..|tasks|] == tasks;
  }

  /** Each task has the id of a message that carries it. */
  ghost predicate Credited(messages: seq<Message>, tasks: seq<ImplementationTask>, handoffIds: seq<string>,
                           marker: string) {
    && |handoffIds| == |tasks|
    && forall i | 0 <= i < |tasks| ::
         exists m | m in messages :: m.id == handoffIds[i] && Matches(m, tasks[i].agent, marker)
  }

  lemma {:induction false} CreditedNext(messages: seq<Message>, more: seq<Message>, tasks: seq<ImplementationTask>,
                                        i: nat,
                     handoffIds: seq<string>, marker: string, m: Message)
    requires i < |tasks| && Credited(messages, tasks[..i], handoffIds, marker)
    requires m in messages + more && Matches(m, tasks[i].agent, marker)
    ensures Credited(messages + more, tasks[..i + 1], handoffIds + [m.id], marker)
  {
    var credits := handoffIds + [m.id];
    forall k | 0 <= k <= i
      ensures exists n | n in messages + more :: n.id == credits[k] && Matches(n, tasks[..i + 1][k].agent, marker)
    {
      if k < i {
        assert tasks[..i][k] == tasks[k] && credits[k] == handoffIds[k];
        var n :| n in messages && n.id == handoffIds[k] && Matches(n, tasks[..i][k].agent, marker);
        assert n in messages + more;
      }
    }
  }

  lemma {:induction false} CreditedSent(messages: seq<Message>, tasks: seq<ImplementationTask>, i: nat,
                                        handoffIds: seq<string>, marker: string, id: string)
    requires i < |tasks| && Credited(messages, tasks[..i], handoffIds, marker)
    ensures Credited(messages + [MessageFor(tasks[i], marker, id)], tasks[..i + 1], handoffIds + [id], marker)
  {
    SentTaskMatches(tasks[i], marker, id);
    CreditedNext(messages, [MessageFor(tasks[i], marker, id)], tasks, i, handoffIds, marker,
                 MessageFor(tasks[i], marker, id));
  }

  lemma {:induction false} CreditedFound(messages: seq<Message>, tasks: seq<ImplementationTask>, i: nat,
                                         handoffIds: seq<string>, marker: string, m: Message)
    requires i < |tasks| && Credited(messages, tasks[..i], handoffIds, marker)
    requires m in messages && Matches(m, tasks[i].agent, marker)
    ensures Credited(messages, tasks[..i + 1], handoffIds + [m.id], marker)
  {
    CreditedNext(messages, [], tasks, i, handoffIds, marker, m);
    assert messages + [] == messages;
  }

  lemma {:induction false} PendingNext(tasks: seq<ImplementationTask>, i: nat, messages: seq<Message>, marker: string,
                                       sent: nat)
    requires i < |tasks|
    requires var pending := Pending(tasks, messages, marker);
             sent <= |pending| && Pending(tasks[..i], messages, marker) == pending[..sent]
    ensures var pending := Pending(tasks, messages, marker);
            if Reached(messages, tasks[i].agent, marker)
            then Pending(tasks[..i + 1], messages, marker) == pending[..sent]
            else
              && sent < |pending| && pending[sent] == tasks[i]
              && Pending(tasks[..i + 1], messages, marker) == pending[..sent + 1]
  {
    var pending := Pending(tasks, messages, marker);
    assert tasks[..i + 1][..i] == tasks[..i];
    PendingGrows(tasks, i + 1, messages, marker);
    if !Reached(messages, tasks[i].agent, marker) {
      var grown := Pending(tasks[..i + 1], messages, marker);
      assert grown == pending[..sent] + [tasks[i]];
      assert grown == pending[..|grown|];
    }
  }

  lemma {:induction false} DeliveredNext(initial: seq<Message>, pending: seq<ImplementationTask>, sent: nat,
                                         marker: string, ids: nat -> string)
    requires sent < |pending|
    ensures initial + Delivered(pending[..sent + 1], marker, ids)
            == initial + Delivered(pending[..sent], marker, ids) + [MessageFor(pending[sent], marker, ids(sent))]
  {
    assert Delivered(pending[..sent + 1], marker, ids)
        == Delivered(pending[..sent], marker, ids) + [MessageFor(pending[sent], marker, ids(sent))];
  }

  lemma {:induction false} ProgressStops(sends: nat -> bool, n: nat, k: nat)
    requires k < n && !sends(k) && forall i: nat | i < k :: sends(i)
    ensures Progress(sends, n) == k
  {
  }

  method Find(messages: seq<Message>, agent: string, marker: string) returns (found: Option<Message>)
    ensures found.Some? <==> Reached(messages, agent, marker)
    ensures found.Some? ==> found.value in messages && Matches(found.value, agent, marker)
  {
    for i := 0 to |messages|
      invariant forall k | 0 <= k < i :: !Matches(messages[k], agent, marker)
    {
      if Matches(messages[i], agent, marker) { return Some(messages[i]); }
    }
    return None;
  }

  lemma {:induction false} PendingGrows(tasks: seq<ImplementationTask>, n: nat, messages: seq<Message>, marker: string)
    requires n <= |tasks|
    ensures Pending(tasks[..n], messages, marker) <= Pending(tasks, messages, marker)
    decreases |tasks| - n
  {
    if n == |tasks| {
      assert tasks[..n] == tasks;
    } else {
      PendingGrows(tasks, n + 1, messages, marker);
      assert tasks[..n + 1][..n] == tasks[..n];
    }
  }

  // ---- Any number of attempts ----

  /** The messages after one attempt. */
  function Attempted(messages: seq<Message>, plan: Plan, sends: nat -> bool, ids: nat -> string): seq<Message> {
    var pending := Pending(plan.tasks, messages, Marker(plan.planId));
    messages + Delivered(pending[..Progress(sends, |pending|)], Marker(plan.planId), ids)
  }

  predicate Completes(messages: seq<Message>, plan: Plan, sends: nat -> bool) {
    var n := |Pending(plan.tasks, messages, Marker(plan.planId))|;
    Progress(sends, n) == n
  }

  function Count(messages: seq<Message>, agent: string, marker: string): nat {
    if messages == [] then 0
    else
      Count(messages[..|messages| - 1], agent, marker) +
      if Matches(messages[|messages| - 1], agent, marker) then 1 else 0
  }

  lemma {:induction false} CountAppend(messages: seq<Message>, more: seq<Message>, agent: string, marker: string)
    ensures Count(messages + more, agent, marker) == Count(messages, agent, marker) + Count(more, agent, marker)
  {
    if more == [] {
      assert messages + more == messages;
    } else {
      var init := more[..|more| - 1];
      assert (messages + more)[..|messages + more| - 1] == messages + init;
      CountAppend(messages, init, agent, marker);
    }
  }

  lemma {:induction false} ReachedIsCounted(messages: seq<Message>, agent: string, marker: string)
    ensures Reached(messages, agent, marker) <==> Count(messages, agent, marker) > 0
  {
    if messages != [] {
      var init := messages[..|messages| - 1];
      ReachedIsCounted(init, agent, marker);
      assert messages == init + [messages[|messages| - 1]];
    }
  }

  /** How many of the tasks are for the agent. */
  function TasksFor(tasks: seq<ImplementationTask>, agent: string): nat {
    if tasks == [] then 0
    else TasksFor(tasks[..|tasks| - 1], agent) + if tasks[|tasks| - 1].agent == agent then 1 else 0
  }

  lemma {:induction false} DeliveredCount(tasks: seq<ImplementationTask>, marker: string, ids: nat -> string,
                                          agent: string)
    ensures Count(Delivered(tasks, marker, ids), agent, marker) == TasksFor(tasks, agent)
  {
    if tasks != [] {
      var init, last := tasks[..|tasks| - 1], tasks[|tasks| - 1];
      DeliveredCount(init, marker, ids, agent);
      SentTaskMatches(last, marker, ids(|init|));
      assert Delivered(tasks, marker, ids)[..|init|] == Delivered(init, marker, ids);
    }
  }

  lemma {:induction false} TasksForNext(tasks: seq<ImplementationTask>, last: ImplementationTask, agent: string)
    ensures TasksFor(tasks + [last], agent) == TasksFor(tasks, agent) + if last.agent == agent then 1 else 0
  {
    assert (tasks + [last])[..|tasks|] == tasks;
  }

  lemma {:induction false} PendingLast(tasks: seq<ImplementationTask>, messages: seq<Message>, marker: string,
                                       agent: string)
    requires tasks != []
    ensures var init, last := tasks[..|tasks| - 1], tasks[|tasks| - 1];
            TasksFor(Pending(tasks, messages, marker), agent)
            == TasksFor(Pending(init, messages, marker), agent)
               + if last.agent == agent && !Reached(messages, last.agent, marker) then 1 else 0
  {
    var last := tasks[|tasks| - 1];
    var pending := Pending(tasks[..|tasks| - 1], messages, marker);
    TasksForNext(pending, last, agent);
    assert pending + [] == pending;
  }

  lemma {:induction false} PendingCount(tasks: seq<ImplementationTask>, messages: seq<Message>, marker: string,
                                        agent: string)
    ensures TasksFor(Pending(tasks, messages, marker), agent)
            == if Reached(messages, agent, marker) then 0 else TasksFor(tasks, agent)
  {
    if tasks != [] {
      PendingCount(tasks[..|tasks| - 1], messages, marker, agent);
      PendingLast(tasks, messages, marker, agent);
    }
  }

  lemma {:induction false} PrefixCount(tasks: seq<ImplementationTask>, n: nat, agent: string)
    requires n <= |tasks|
    ensures TasksFor(tasks[..n], agent) <= TasksFor(tasks, agent)
    decreases |tasks| - n
  {
    if n < |tasks| {
      PrefixCount(tasks, n + 1, agent);
      assert tasks[..n + 1][..n] == tasks[..n];
    } else {
      assert tasks[..n] == tasks;
    }
  }

  lemma {:induction false} DistinctCount(tasks: seq<ImplementationTask>, agent: string)
    requires DistinctAgents(tasks)
    ensures TasksFor(tasks, agent) == if exists t | t in tasks :: t.agent == agent then 1 else 0
  {
    if tasks != [] {
      var init := tasks[..|tasks| - 1];
      assert tasks == init + [tasks[|tasks| - 1]];
      DistinctCount(init, agent);
    }
  }

  /** One attempt adds messages for an agent only if there were none, and then at most one for
      each of its tasks, exactly one when the attempt completes. */
  lemma {:induction false} AttemptCount(messages: seq<Message>, plan: Plan, sends: nat -> bool, ids: nat -> string,
                                        agent: string)
    ensures var before := Count(messages, agent, Marker(plan.planId));
            var after := Count(Attempted(messages, plan, sends, ids), agent, Marker(plan.planId));
            && (before > 0 ==> after == before)
            && before <= after <= before + TasksFor(plan.tasks, agent)
            && (before == 0 && Completes(messages, plan, sends) ==> after == TasksFor(plan.tasks, agent))
  {
    var marker := Marker(plan.planId);
    var pending := Pending(plan.tasks, messages, marker);
    var n := Progress(sends, |pending|);
    CountAppend(messages, Delivered(pending[..n], marker, ids), agent, marker);
    DeliveredCount(pending[..n], marker, ids, agent);
    PrefixCount(pending, n, agent);
    PendingCount(plan.tasks, messages, marker, agent);
    ReachedIsCounted(messages, agent, marker);
    assert n == |pending| ==> pending[..n] == pending;
  }

  /** What happens to the messages over time: attempts at the plan, and messages of others. */
  datatype Happening = Attempt(sends: nat -> bool, ids: nat -> string) | Foreign(message: Message)

  function After(messages: seq<Message>, plan: Plan, happenings: seq<Happening>): seq<Message> {
    if happenings == [] then messages
    else
      var before := After(messages, plan, happenings[..|happenings| - 1]);
      match happenings[|happenings| - 1]
      case Attempt(sends, ids) => Attempted(before, plan, sends, ids)
      case Foreign(message) => before + [message]
  }

  /** Messages of others do not carry the marker of the plan. */
  ghost predicate NoForgery(plan: Plan, happenings: seq<Happening>) {
    forall i | 0 <= i < |happenings| && happenings[i].Foreign? ::
      forall t | t in plan.tasks :: !Matches(happenings[i].message, t.agent, Marker(plan.planId))
  }

  ghost predicate SomeAttemptCompletes(messages: seq<Message>, plan: Plan, happenings: seq<Happening>) {
    exists i | 0 <= i < |happenings| ::
      happenings[i].Attempt? && Completes(After(messages, plan, happenings[..i]), plan, happenings[i].sends)
  }

  /** Restartable dispatch: over any number of attempts with failures anywhere, an agent of a
      plan with distinct agents has at most one task of the plan, and exactly one from the
      first complete attempt on. */
  lemma {:induction false} ExactlyOnce(messages: seq<Message>, plan: Plan, happenings: seq<Happening>,
                                       task: ImplementationTask)
    requires DistinctAgents(plan.tasks) && task in plan.tasks && NoForgery(plan, happenings)
    requires Count(messages, task.agent, Marker(plan.planId)) <= 1
    ensures Count(After(messages, plan, happenings), task.agent, Marker(plan.planId)) <= 1
    ensures SomeAttemptCompletes(messages, plan, happenings) ==>
              Count(After(messages, plan, happenings), task.agent, Marker(plan.planId)) == 1
  {
    if happenings != [] {
      var init, last := happenings[..|happenings| - 1], happenings[|happenings| - 1];
      var before := After(messages, plan, init);
      ExactlyOnce(messages, plan, init, task);
      DistinctCount(plan.tasks, task.agent);
      match last {
        case Attempt(sends, ids) => AttemptCount(before, plan, sends, ids, task.agent);
        case Foreign(message) => CountAppend(before, [message], task.agent, Marker(plan.planId));
      }
      EarlierAttempt(messages, plan, happenings);
    }
  }

  lemma {:induction false} EarlierAttempt(messages: seq<Message>, plan: Plan, happenings: seq<Happening>)
    requires happenings != []
    ensures var n := |happenings| - 1;
            SomeAttemptCompletes(messages, plan, happenings) ==>
              || SomeAttemptCompletes(messages, plan, happenings[..n])
              || (happenings[n].Attempt? && Completes(After(messages, plan, happenings[..n]), plan,
                                                      happenings[n].sends))
  {
    var n := |happenings| - 1;
    if SomeAttemptCompletes(messages, plan, happenings) {
      var i :| 0 <= i < |happenings| && happenings[i].Attempt?
               && Completes(After(messages, plan, happenings[..i]), plan, happenings[i].sends);
      if i < n {
        assert happenings[..n][..i] == happenings[..i] && happenings[..n][i] == happenings[i];
      }
    }
  }

  lemma {:induction false} TwoTasks(tasks: seq<ImplementationTask>, i: nat, j: nat)
    requires i < j < |tasks| && tasks[i].agent == tasks[j].agent
    ensures TasksFor(tasks, tasks[i].agent) >= 2
  {
    var init := tasks[..|tasks| - 1];
    if j < |init| {
      TwoTasks(init, i, j);
    } else {
      OneTask(init, i);
    }
  }

  lemma {:induction false} OneTask(tasks: seq<ImplementationTask>, i: nat)
    requires i < |tasks|
    ensures TasksFor(tasks, tasks[i].agent) >= 1
  {
    if i < |tasks| - 1 {
      OneTask(tasks[..|tasks| - 1], i);
    }
  }

  /** On a store without tasks of the plan, a complete attempt leaves one task for each agent
      exactly when the agents of the plan are pairwise distinct. */
  lemma {:induction false} OncePerAgentExactly(messages: seq<Message>, plan: Plan, sends: nat -> bool,
                                               ids: nat -> string)
    requires forall t | t in plan.tasks :: !Reached(messages, t.agent, Marker(plan.planId))
    requires Completes(messages, plan, sends)
    ensures DistinctAgents(plan.tasks) <==>
              forall t | t in plan.tasks :: Count(Attempted(messages, plan, sends, ids), t.agent, Marker(plan.planId))
                  == 1
  {
    forall t | t in plan.tasks
      ensures Count(Attempted(messages, plan, sends, ids), t.agent, Marker(plan.planId))
              == TasksFor(plan.tasks, t.agent)
    {
      ReachedIsCounted(messages, t.agent, Marker(plan.planId));
      AttemptCount(messages, plan, sends, ids, t.agent);
    }
    if DistinctAgents(plan.tasks) {
      forall t | t in plan.tasks ensures TasksFor(plan.tasks, t.agent) == 1 { DistinctCount(plan.tasks, t.agent); }
    } else {
      var i, j :| 0 <= i < j < |plan.tasks| && plan.tasks[i].agent == plan.tasks[j].agent;
      TwoTasks(plan.tasks, i, j);
      assert plan.tasks[i] in plan.tasks;
    }
  }

  /** A task for the agent with the marker of the plan anywhere in its context. */
  predicate Quotes(m: Message, agent: string, planId: string, before: string, after: string) {
    m.isTask && m.to == agent && m.context == Some(before + ("[loadout-implementation:" + planId + "]") + after)
  }

  lemma {:induction false} QuoteMatches(m: Message, agent: string, planId: string, before: string, after: string)
    requires Quotes(m, agent, planId, before, after)
    ensures Matches(m, agent, Marker(planId))
  {
    Surrounded(m.context.value, before, Marker(planId), after);
  }

  lemma {:induction false} Surrounded(s: string, before: string, t: string, after: string)
    requires s == before + t + after
    ensures Contains(s, t)
  {
    assert s[|before|..] == t + after;
  }

  lemma {:induction false} MatchQuotes(m: Message, agent: string, planId: string)
    requires Matches(m, agent, Marker(planId))
    ensures exists before, after :: Quotes(m, agent, planId, before, after)
  {
    var s, marker := m.context.value, Marker(planId);
    var i :| 0 <= i <= |s| && marker <= s[i..];
    Around(s, i, marker);
    assert Quotes(m, agent, planId, s[..i], s[i + |marker|..]);
  }

  lemma {:induction false} Around(s: string, i: nat, t: string)
    requires i <= |s| && t <= s[i..]
    ensures i + |t| <= |s| && s == s[..i] + t + s[i + |t|..]
  {
  }

  lemma {:induction false} ReachedExactly(messages: seq<Message>, agent: string, planId: string)
    ensures Reached(messages, agent, Marker(planId))
            <==> exists m, before, after :: m in messages && Quotes(m, agent, planId, before, after)
  {
    if Reached(messages, agent, Marker(planId)) {
      var m :| m in messages && Matches(m, agent, Marker(planId));
      MatchQuotes(m, agent, planId);
    }
    if m, before, after :| m in messages && Quotes(m, agent, planId, before, after) {
      QuoteMatches(m, agent, planId, before, after);
    }
  }

  /** A complete attempt sends an agent its task exactly when no earlier task for that agent has
      the marker anywhere in its context, be it only quoted. */
  lemma {:induction false} SentExactly(messages: seq<Message>, plan: Plan, sends: nat -> bool, ids: nat -> string,
                                       task: ImplementationTask)
    requires task in plan.tasks && Completes(messages, plan, sends)
    ensures (exists m | m in Attempted(messages, plan, sends, ids)[|messages|..] :: m.to == task.agent)
            <==> !exists m, before, after :: m in messages && Quotes(m, task.agent, plan.planId, before, after)
  {
    ReachedExactly(messages, task.agent, plan.planId);
    SentUnlessReached(messages, plan, sends, ids, task);
  }

  lemma {:induction false} SentUnlessReached(messages: seq<Message>, plan: Plan, sends: nat -> bool, ids: nat -> string,
                                             task: ImplementationTask)
    requires task in plan.tasks && Completes(messages, plan, sends)
    ensures (exists m | m in Attempted(messages, plan, sends, ids)[|messages|..] :: m.to == task.agent)
            <==> !Reached(messages, task.agent, Marker(plan.planId))
  {
    var marker := Marker(plan.planId);
    var pending := Pending(plan.tasks, messages, marker);
    var added := Delivered(pending, marker, ids);
    assert pending[..|pending|] == pending && Attempted(messages, plan, sends, ids)[|messages|..] == added;
    DeliveredCount(pending, marker, ids, task.agent);
    PendingCount(plan.tasks, messages, marker, task.agent);
    ReachedIsCounted(added, task.agent, marker);
    var i :| 0 <= i < |plan.tasks| && plan.tasks[i] == task;
    OneTask(plan.tasks, i);
    forall m | m in added && m.to == task.agent ensures Matches(m, task.agent, marker) {
      var k :| 0 <= k < |added| && added[k] == m;
      SentTaskMatches(pending[k], marker, ids(k));
    }
  }

  lemma {:induction false} PendingUnreached(tasks: seq<ImplementationTask>, messages: seq<Message>, marker: string)
    ensures forall t | t in Pending(tasks, messages, marker) :: !Reached(messages, t.agent, marker)
  {
    if tasks != [] {
      PendingUnreached(tasks[..|tasks| - 1], messages, marker);
    }
  }

  lemma {:induction false} ReachedGetsNone(messages: seq<Message>, plan: Plan, sends: nat -> bool, ids: nat -> string,
                                           agent: string)
    requires Reached(messages, agent, Marker(plan.planId))
    ensures messages <= Attempted(messages, plan, sends, ids)
    ensures forall m | m in Attempted(messages, plan, sends, ids)[|messages|..] :: m.to != agent
  {
    var pending := Pending(plan.tasks, messages, Marker(plan.planId));
    PendingUnreached(plan.tasks, messages, Marker(plan.planId));
    forall m | m in Attempted(messages, plan, sends, ids)[|messages|..] ensures m.to != agent {
      var k :| 0 <= k < |Attempted(messages, plan, sends, ids)[|messages|..]|
               && Attempted(messages, plan, sends, ids)[|messages|..][k] == m;
      assert m == MessageFor(pending[k], Marker(plan.planId), ids(k)) && pending[k] in pending;
    }
  }

  /** After such a task no attempt at the plan, however many there are and whether they complete,
      ever sends the agent anything: its own task is taken for sent. */
  lemma {:induction false} QuotedMarkerBlocks(messages: seq<Message>, quote: Message, before: string, after: string,
                                              plan: Plan, happenings: seq<Happening>, agent: string)
    requires quote in messages && Quotes(quote, agent, plan.planId, before, after)
    requires forall h | h in happenings :: h.Attempt?
    ensures messages <= After(messages, plan, happenings)
    ensures forall m | m in After(messages, plan, happenings)[|messages|..] :: m.to != agent
  {
    if happenings != [] {
      var init, last := happenings[..|happenings| - 1], happenings[|happenings| - 1];
      QuotedMarkerBlocks(messages, quote, before, after, plan, init, agent);
      var earlier := After(messages, plan, init);
      QuoteMatches(quote, agent, plan.planId, before, after);
      assert quote in earlier && Matches(quote, agent, Marker(plan.planId));
      assert last in happenings;
      ReachedGetsNone(earlier, plan, last.sends, last.ids, agent);
      LaterOnes(messages, earlier, After(messages, plan, happenings), agent);
    }
  }

  lemma {:induction false} LaterOnes(a: seq<Message>, b: seq<Message>, c: seq<Message>, agent: string)
    requires a <= b <= c && (forall m | m in b[|a|..] :: m.to != agent) && forall m | m in c[|b|..] :: m.to != agent
    ensures forall m | m in c[|a|..] :: m.to != agent
  {
    assert c[|a|..] == b[|a|..] + c[|b|..];
  }

  /** With two tasks for one agent, an attempt that fails between them loses the second for
      good: every later attempt finds the agent served. */
  lemma {:induction false} SecondTaskIsLost(plan: Plan, a: ImplementationTask, b: ImplementationTask,
                                            sends: nat -> bool, ids: nat -> string)
    requires plan.tasks == [a, b] && a.agent == b.agent
    requires sends(0) && !sends(1)
    ensures Attempted([], plan, sends, ids) == [MessageFor(a, Marker(plan.planId), ids(0))]
    ensures forall later: nat -> bool ::
              Attempted(Attempted([], plan, sends, ids), plan, later, ids) == Attempted([], plan, sends, ids)
  {
    var marker := Marker(plan.planId);
    var sent := MessageFor(a, marker, ids(0));
    PendingPair(a, b, [], marker);
    ProgressStops(sends, 2, 1);
    assert [a, b][..1] == [a];
    assert Delivered([a], marker, ids) == [sent];
    SentTaskMatches(a, marker, ids(0));
    assert sent in [sent] && Reached([sent], a.agent, marker);
    PendingPair(a, b, [sent], marker);
    forall later: nat -> bool ensures Attempted([sent], plan, later, ids) == [sent] {
      assert [sent] + Delivered([], marker, ids) == [sent];
    }
  }

  lemma {:induction false} PendingPair(a: ImplementationTask, b: ImplementationTask, messages: seq<Message>,
                                       marker: string)
    requires a.agent == b.agent
    ensures Pending([a, b], messages, marker) == if Reached(messages, a.agent, marker) then [] else [a, b]
  {
    assert [a, b][..1] == [a] && [a][..0] == [];
    assert Pending([a], messages, marker) == if Reached(messages, a.agent, marker) then [] else [a];
  }
}
