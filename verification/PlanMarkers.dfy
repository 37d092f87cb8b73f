/** The marker and the notice of a plan tell it from every other plan. */
module PlanMarkers {
  import opened Wrappers
  import opened Strings
  import opened Pipeline

  // ---- Tags in a text ----

  predicate Bracketless(s: string) {
    '[' !in s && ']' !in s
  }

  /** One opening bracket, in front. */
  predicate Opens(open: string) {
    open != "" && open[0] == '[' && Bracketless(open[1..])
  }

  lemma {:induction false} SameTag(open: string, p: string, q: string, rest: string)
    requires Bracketless(p) && Bracketless(q) && open + q + "]" <= open + p + "]" + rest
    ensures p == q
  {
    var t, whole := open + q + "]", open + p + "]" + rest;
    assert t[|open| + |q|] == ']' && whole[|open| + |p|] == ']';
    assert forall k | 0 <= k < |p| :: p[k] == whole[|open| + k];
    assert forall k | 0 <= k < |q| :: q[k] == t[|open| + k];
    assert q == t[|open|..|open| + |q|] && p == whole[|open|..|open| + |p|];
  }

  lemma {:induction false} OpensThere(open: string, p: string, context: string, i: nat)
    requires Opens(open) && Bracketless(p)
    requires var whole := open + p + "]\n" + context; i < |whole| && whole[i] == '['
    ensures i == 0 || i >= |open| + |p| + 2
  {
    var whole := open + p + "]\n" + context;
    assert forall k | 0 <= k < |open[1..]| :: open[1..][k] == whole[k + 1];
    assert forall k | 0 <= k < |p| :: p[k] == whole[|open| + k];
  }

  lemma {:induction false} ContextFrom(head: string, context: string, i: nat, open: string)
    requires |head| <= i <= |head + context| && open <= (head + context)[i..]
    ensures Contains(context, open)
  {
    assert (head + context)[i..] == context[i - |head|..];
  }

  /** A tagged context holds the tag of one plan only. */
  lemma {:induction false} TagTells(open: string, p: string, q: string, context: string)
    requires Opens(open) && Bracketless(p) && Bracketless(q) && !Contains(context, open)
    ensures Contains(open + p + "]\n" + context, open + q + "]") <==> p == q
  {
    var head, t := open + p + "]\n", open + q + "]";
    var whole := head + context;
    if p == q {
      assert whole[0..] == whole && t <= whole;
    }
    if Contains(whole, t) {
      var i :| 0 <= i <= |whole| && t <= whole[i..];
      assert whole[i] == t[0] == '[';
      OpensThere(open, p, context, i);
      assert open <= whole[i..];
      if i == 0 {
        assert whole[0..] == whole == open + p + "]" + ("\n" + context);
        SameTag(open, p, q, "\n" + context);
      } else {
        ContextFrom(head, context, i, open);
      }
    }
  }

  // ---- Markers ----

  const OPENING := "[loadout-implementation:"

  lemma {:induction false} BracketlessParts(a: string, b: string)
    requires Bracketless(a) && Bracketless(b)
    ensures Bracketless(a + b)
  {
  }

  lemma {:induction false} OpeningParts()
    ensures Bracketless("loadout-") && Bracketless("implem") && Bracketless("entation:")
  {
  }

  lemma {:induction false} OpeningOpens()
    ensures Opens(OPENING)
  {
    OpeningParts();
    BracketlessParts("implem", "entation:");
    BracketlessParts("loadout-", "implem" + "entation:");
    assert OPENING[1..] == "loadout-" + ("implem" + "entation:");
  }

  /** What a sent task says, in full. */
  predicate Sends(m: Message, task: ImplementationTask, planId: string, id: string) {
    && m.isTask && m.to == task.agent && m.id == id && m.description == task.description
    && m.context == Some("[loadout-implementation:" + planId + "]\n" + task.context)
  }

  lemma {:induction false} MessageSends(task: ImplementationTask, planId: string, id: string)
    ensures Sends(MessageFor(task, Marker(planId), id), task, planId, id)
  {
    assert Marker(planId) + "\n" == "[loadout-implementation:" + planId + "]\n";
  }

  /** The context does not quote any marker. */
  predicate Clean(task: ImplementationTask) {
    !Contains(task.context, OPENING)
  }

  /** A task of one plan is recognised as a task of another exactly if it is the same plan. */
  lemma {:induction false} MarkerTells(m: Message, task: ImplementationTask, p: string, q: string, id: string)
    requires Sends(m, task, p, id) && Bracketless(p) && Bracketless(q) && Clean(task)
    ensures Matches(m, task.agent, Marker(q)) <==> p == q
  {
    OpeningOpens();
    TagTells(OPENING, p, q, task.context);
  }

  // ---- Plans side by side ----

  datatype Dispatch = Dispatch(plan: Plan, sends: nat -> bool, ids: nat -> string)

  /** The messages after some attempts at any plans. */
  function Store(attempts: seq<Dispatch>): seq<Message> {
    if attempts == [] then []
    else
      var last := attempts[|attempts| - 1];
      Attempted(Store(attempts[..|attempts| - 1]), last.plan, last.sends, last.ids)
  }

  predicate WellNamed(plan: Plan) {
    Bracketless(plan.planId) && forall t | t in plan.tasks :: Clean(t)
  }

  /** A message that some attempt at another plan has sent. */
  ghost predicate OfOther(m: Message, planId: string) {
    exists task, other, id :: Sends(m, task, other, id) && Clean(task) && Bracketless(other) && other != planId
  }

  lemma {:induction false} PendingAreTasks(tasks: seq<ImplementationTask>, messages: seq<Message>, marker: string)
    ensures forall t | t in Pending(tasks, messages, marker) :: t in tasks
  {
    if tasks != [] {
      assert tasks == tasks[..|tasks| - 1] + [tasks[|tasks| - 1]];
      PendingAreTasks(tasks[..|tasks| - 1], messages, marker);
    }
  }

  lemma {:induction false} DeliveredOfOther(tasks: seq<ImplementationTask>, other: string, ids: nat -> string,
                                            planId: string)
    requires Bracketless(other) && other != planId && forall t | t in tasks :: Clean(t)
    ensures forall m | m in Delivered(tasks, Marker(other), ids) :: OfOther(m, planId)
  {
    forall m | m in Delivered(tasks, Marker(other), ids) ensures OfOther(m, planId) {
      var k :| 0 <= k < |tasks| && Delivered(tasks, Marker(other), ids)[k] == m;
      MessageSends(tasks[k], other, ids(k));
      assert tasks[k] in tasks;
    }
  }

  lemma {:induction false} StoreOfOthers(attempts: seq<Dispatch>, planId: string)
    requires forall a | a in attempts :: WellNamed(a.plan) && a.plan.planId != planId
    ensures forall m | m in Store(attempts) :: OfOther(m, planId)
  {
    if attempts != [] {
      var init, last := attempts[..|attempts| - 1], attempts[|attempts| - 1];
      assert attempts == init + [last] && last in attempts;
      StoreOfOthers(init, planId);
      var before := Store(init);
      var pending := Pending(last.plan.tasks, before, Marker(last.plan.planId));
      PendingAreTasks(last.plan.tasks, before, Marker(last.plan.planId));
      DeliveredOfOther(pending[..Progress(last.sends, |pending|)], last.plan.planId, last.ids, planId);
    }
  }

  lemma {:induction false} NotReached(messages: seq<Message>, agent: string, planId: string)
    requires Bracketless(planId) && forall m | m in messages :: OfOther(m, planId)
    ensures !Reached(messages, agent, Marker(planId))
  {
    forall m | m in messages ensures !Matches(m, agent, Marker(planId)) {
      var task, other, id :| Sends(m, task, other, id) && Clean(task) && Bracketless(other) && other != planId;
      MarkerTells(m, task, other, planId, id);
    }
  }

  lemma {:induction false} AllPending(tasks: seq<ImplementationTask>, messages: seq<Message>, marker: string)
    requires forall t | t in tasks :: !Reached(messages, t.agent, marker)
    ensures Pending(tasks, messages, marker) == tasks
  {
    if tasks != [] {
      assert tasks == tasks[..|tasks| - 1] + [tasks[|tasks| - 1]];
      AllPending(tasks[..|tasks| - 1], messages, marker);
    }
  }

  /** What is new is the plan's own tasks, one message each. */
  predicate SendsEach(before: seq<Message>, after: seq<Message>, plan: Plan, ids: nat -> string) {
    && |after| == |before| + |plan.tasks| && before <= after
    && forall k | 0 <= k < |plan.tasks| :: Sends(after[|before| + k], plan.tasks[k], plan.planId, ids(k))
  }

  /** Whatever attempts at other plans there were, complete or not: the first complete attempt at a
      plan sends each of its tasks, in order, with its own text and marker, and nothing else. */
  lemma {:induction false} OtherPlansDoNotBlock(attempts: seq<Dispatch>, plan: Plan, sends: nat -> bool,
                                                ids: nat -> string)
    requires Bracketless(plan.planId)
    requires forall a | a in attempts :: WellNamed(a.plan) && a.plan.planId != plan.planId
    requires forall k: nat | k < |plan.tasks| :: sends(k)
    ensures SendsEach(Store(attempts), Attempted(Store(attempts), plan, sends, ids), plan, ids)
  {
    var before, after := Store(attempts), Attempted(Store(attempts), plan, sends, ids);
    NoneReached(attempts, plan);
    FreshAttempt(before, plan, sends, ids);
    DeliveredSends(before, after, plan, ids);
  }

  lemma {:induction false} NoneReached(attempts: seq<Dispatch>, plan: Plan)
    requires Bracketless(plan.planId)
    requires forall a | a in attempts :: WellNamed(a.plan) && a.plan.planId != plan.planId
    ensures forall t | t in plan.tasks :: !Reached(Store(attempts), t.agent, Marker(plan.planId))
  {
    StoreOfOthers(attempts, plan.planId);
    forall t | t in plan.tasks ensures !Reached(Store(attempts), t.agent, Marker(plan.planId)) {
      NotReached(Store(attempts), t.agent, plan.planId);
    }
  }

  lemma {:induction false} FreshAttempt(before: seq<Message>, plan: Plan, sends: nat -> bool, ids: nat -> string)
    requires forall t | t in plan.tasks :: !Reached(before, t.agent, Marker(plan.planId))
    requires forall k: nat | k < |plan.tasks| :: sends(k)
    ensures Attempted(before, plan, sends, ids) == before + Delivered(plan.tasks, Marker(plan.planId), ids)
  {
    AllPending(plan.tasks, before, Marker(plan.planId));
    AllSent(sends, |plan.tasks|);
    assert plan.tasks[..|plan.tasks|] == plan.tasks;
  }

  lemma {:induction false} DeliveredSends(before: seq<Message>, after: seq<Message>, plan: Plan, ids: nat -> string)
    requires after == before + Delivered(plan.tasks, Marker(plan.planId), ids)
    ensures SendsEach(before, after, plan, ids)
  {
    var tasks, planId := plan.tasks, plan.planId;
    forall k | 0 <= k < |tasks| ensures Sends(after[|before| + k], tasks[k], planId, ids(k)) {
      assert after[|before| + k] == MessageFor(tasks[k], Marker(planId), ids(k));
      MessageSends(tasks[k], planId, ids(k));
    }
  }

  lemma {:induction false} AllSent(sends: nat -> bool, n: nat)
    requires forall k: nat | k < n :: sends(k)
    ensures Progress(sends, n) == n
  {
    if n > 0 { AllSent(sends, n - 1); }
  }

  /** And a plan is announced although others have been. */
  lemma {:induction false} NoticeTells(p: string, q: string)
    ensures Notice(p) == Notice(q) <==> p == q
  {
    if Notice(p) == Notice(q) {
      SameMiddle("Implementation plan ", p, q, " dispatched");
    }
  }

  lemma {:induction false} SameMiddle(a: string, p: string, q: string, z: string)
    requires a + p + z == a + q + z
    ensures p == q
  {
    var whole := a + p + z;
    assert |whole| == |a| + |p| + |z| == |a| + |q| + |z|;
    assert p == whole[|a|..|a| + |p|] && q == (a + q + z)[|a|..|a| + |q|];
  }
}
