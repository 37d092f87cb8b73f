/** The coordinator itself: an object that holds the working log and the kill switch and
    changes them in place, with the never-compacted history as ghost state. */
module Coordinator {
  import opened Wrappers
  import Strings
  import opened Paths
  import opened Events
  import opened Ownership
  import opened Retention
  import opened Contracts
  import C = Coordination
  import A = Addressing

  /** What one command does: the working log steps as the state machine says, and if it stood
      for its history and the caller kept the conditions, the history steps to the same outcome
      and the new log stands for the new history. */
  ghost predicate Stepped(history: C.State, working: C.State, history': C.State, working': C.State,
                          c: C.Command, outcome: C.Outcome) {
    && (working', outcome) == C.Next(working, c, true)
    && history' == C.Next(history, c, false).0
    && (C.Stands(history, working) && C.CleanNames(c) && C.NoCrossClaim(history, c) ==>
          C.Stands(history', working') && outcome == C.Next(history, c, false).1)
  }

  lemma {:induction false} Refines(history: C.State, working: C.State, c: C.Command)
    ensures Stepped(history, working, C.Next(history, c, false).0, C.Next(working, c, true).0,
                    c, C.Next(working, c, true).1)
  {
    if C.Stands(history, working) && C.CleanNames(c) && C.NoCrossClaim(history, c) {
      C.StepRefines(history, working, c);
    }
  }

  class CoordinationLog {
    var log: seq<Event>
    var halted: bool
    ghost var history: seq<Event>

    ghost function Working(): C.State
      reads this
    {
      C.State(log, halted)
    }

    ghost function Reference(): C.State
      reads this
    {
      C.State(history, halted)
    }

    ghost predicate Valid()
      reads this
    {
      C.Stands(Reference(), Working())
    }

    constructor ()
      ensures log == [] && history == [] && !halted && Valid()
    {
      log, halted, history := [], false, [];
    }

    /** The shared tail of every mutation. */
    method Append(id: string, now: int, from: string, to: string, body: Body) returns (r: Result<Event, C.Error>)
      modifies this`log
      ensures r == C.AppendLocked(old(Working()), id, now, from, to, body)
      ensures log == if r.Ok? then old(log) + [r.value] else old(log)
      ensures r.Ok? <==> A.Appendable(old(Working()), from, to, body)
      ensures r.Ok? ==> A.Carries(r.value, old(log), id, now, from, to, body)
    {
      A.AppendsExactly(Working(), id, now, from, to, body);
      if halted { return Err(C.Halted); }
      var checked := C.CheckedBody(body);
      if checked.Err? { return Err(checked.error); }
      r := Number(id, now, from, to, checked.value);
      if r.Ok? { log := log + [r.value]; }
    }

    /** The checks against the log, and the event with the next number. */
    method Number(id: string, now: int, from: string, to: string, checked: Body) returns (r: Result<Event, C.Error>)
      ensures r == C.AppendChecked(log, id, now, from, to, checked)
    {
      var high := ComputeHighSeq(log);
      if checked.Ack? && checked.eventSeq > high { return Err(C.FutureAck(high)); }
      if checked.Contract? {
        var current := CurrentRevision(log, checked.name);
        if checked.revision <= current { return Err(C.StaleRevision(current)); }
      }
      if !C.ValidName(from) || !C.ValidName(to) { return Err(C.InvalidPayload); }
      return Ok(Event(high + 1, id, Strings.Trim(from), Strings.Trim(to), now, checked));
    }

    /** Ghost bookkeeping: the history takes the step the reference would take. */
    ghost method Record(c: C.Command)
      modifies this`history
      ensures history == C.Next(old(Reference()), c, false).0.log
    {
      history := C.Next(Reference(), c, false).0.log;
    }

    method Emit(id: string, now: int, from: string, to: string, body: Body) returns (r: Result<Event, C.Error>)
      modifies this
      ensures Stepped(old(Reference()), old(Working()), Reference(), Working(),
                      C.Emit(id, now, from, to, body), C.Report(r))
      ensures r == C.Decide(old(Working()), C.Emit(id, now, from, to, body))
      ensures r.Ok? <==> A.Appendable(old(Working()), from, to, body)
      ensures r.Ok? ==> A.Carries(r.value, old(log), id, now, from, to, body)
    {
      ghost var c := C.Emit(id, now, from, to, body);
      Record(c);
      r := Append(id, now, from, to, body);
      Refines(old(Reference()), old(Working()), c);
    }

    /** Reads ownership, collects every conflict, and appends the claim if there is none. */
    method ClaimOwnership(id: string, now: int, agent: string, paths: seq<string>, mode: Mode)
      returns (r: Result<Event, C.Error>, conflicts: set<Conflict>)
      modifies this
      ensures Stepped(old(Reference()), old(Working()), Reference(), Working(),
                      C.Claim(id, now, agent, paths, mode), C.Report(r))
      ensures r == C.Decide(old(Working()), C.Claim(id, now, agent, paths, mode))
      ensures r == Err(C.OwnershipConflict) <==> conflicts != {}
      ensures FoldOwnership(old(log)).Ok? && NormalizeAll(paths).Ok? ==>
                var own := FoldOwnership(old(log)).value;
                forall k :: k in conflicts <==>
                  k.path in NormalizeAll(paths).value
                  && exists q :: q in own && Clash(own, k.path, q, agent, mode)
                                 && k == Conflict(k.path, own[q].agent, own[q].mode)
      ensures r.Ok? ==> A.Carries(r.value, old(log), id, now, agent, "*", Ownership(paths, mode))
    {
      ghost var c := C.Claim(id, now, agent, paths, mode);
      Record(c);
      conflicts := {};
      var ownership := OwnershipFromEvents(log);
      if ownership.Err? {
        r := Err(C.BadPath(ownership.error));
      } else {
        var requested := NormalizePaths(paths);
        if requested.Err? {
          r := Err(C.BadPath(requested.error));
        } else {
          conflicts := FindConflicts(ownership.value, requested.value, agent, mode);
          if conflicts != {} {
            r := Err(C.OwnershipConflict);
          } else {
            r := Append(id, now, agent, "*", Ownership(paths, mode));
          }
        }
      }
      Refines(old(Reference()), old(Working()), c);
    }

    /** The first of the paths that another agent owns. */
    method ForeignPath(own: OwnershipMap, paths: seq<string>, agent: string) returns (foreign: Option<string>)
      ensures foreign == C.FirstForeign(own, paths, agent) && (foreign.Some? ==> foreign.value in own)
    {
      for i := 0 to |paths|
        invariant C.FirstForeign(own, paths, agent) == C.FirstForeign(own, paths[i..], agent)
      {
        if paths[i] in own && own[paths[i]].agent != agent { return Some(paths[i]); }
      }
      return None;
    }

    method ReleaseOwnership(id: string, now: int, agent: string, paths: seq<string>) returns (r: Result<Event, C.Error>)
      modifies this
      ensures Stepped(old(Reference()), old(Working()), Reference(), Working(),
                      C.Release(id, now, agent, paths), C.Report(r))
      ensures r == C.Decide(old(Working()), C.Release(id, now, agent, paths))
      ensures r.Ok? ==> NormalizeAll(paths).Ok?
                        && A.Carries(r.value, old(log), id, now, agent, "*",
                                     Ownership(NormalizeAll(paths).value, Mode.Release))
    {
      ghost var c := C.Release(id, now, agent, paths);
      Record(c);
      var ownership := OwnershipFromEvents(log);
      if ownership.Err? {
        r := Err(C.BadPath(ownership.error));
      } else {
        var normalized := NormalizePaths(paths);
        if normalized.Err? {
          r := Err(C.BadPath(normalized.error));
        } else {
          var own := ownership.value;
          var foreign := ForeignPath(own, normalized.value, agent);
          if foreign.Some? {
            r := Err(C.ReleaseConflict(foreign.value, own[foreign.value].agent));
          } else {
            r := Append(id, now, agent, "*", Ownership(normalized.value, Mode.Release));
          }
        }
      }
      Refines(old(Reference()), old(Working()), c);
    }

    method PublishContract(id: string, now: int, from: string, name: string, text: string, revision: Option<int>)
      returns (r: Result<Event, C.Error>)
      modifies this
      ensures Stepped(old(Reference()), old(Working()), Reference(), Working(),
                      C.Publish(id, now, from, name, text, revision),
                    C.Report(r))
      ensures r == C.Decide(old(Working()), C.Publish(id, now, from, name, text, revision))
      ensures r.Ok? ==> r.value.body.Contract?
                        && A.NumberedFor(old(log), name, revision, r.value.body.revision)
                        && A.Carries(r.value, old(log), id, now, from, "*", Contract(name, r.value.body.revision, text))
    {
      ghost var c := C.Publish(id, now, from, name, text, revision);
      Record(c);
      A.NextRevision(log, name);
      var current := CurrentRevision(log, name);
      var number := if revision.Some? then revision.value else current + 1;
      r := Append(id, now, from, "*", Contract(name, number, text));
      Refines(old(Reference()), old(Working()), c);
    }

    method CompactLog(id: string, now: int, cutoff: int, maxEvents: int, maxAgeDays: int)
      returns (r: Result<CompactionResult, C.Error>)
      modifies this
      ensures Stepped(old(Reference()), old(Working()), Reference(), Working(),
                      C.Compact(id, now, cutoff, maxEvents, maxAgeDays), if r.Ok? then C.Done else C.Rejected(r.error))
      ensures history == old(history)
      ensures r.Ok? ==> r.value.before == |old(log)| && r.value.after == |log|
      ensures r.Ok? && Increasing(old(log)) && Fresh(old(log), id) ==>
                && (forall i | 0 <= i < |old(log)| ::
                      old(log)[i] in log
                      <==> IsLatest(old(log), old(log)[i]) || Within(old(log), i, cutoff, maxEvents))
                && |Passing(old(log), log)| <= maxEvents
    {
      ghost var c := C.Compact(id, now, cutoff, maxEvents, maxAgeDays);
      if halted {
        r := Err(C.Halted);
      } else {
        var result, rewritten := Compact(log, cutoff, maxEvents, maxAgeDays, id, now);
        if result.Err? {
          r := Err(C.BadCompaction(result.error));
        } else {
          log := rewritten;
          r := Ok(result.value);
        }
      }
      Refines(old(Reference()), old(Working()), c);
    }

    /** Reads see the history's state through the compacted log. */
    method GetOwnership() returns (r: Result<OwnershipMap, PathError>)
      ensures r == FoldOwnership(log)
      ensures Valid() ==> r == FoldOwnership(history) && r.Ok? && Exclusion(r.value)
    {
      r := OwnershipFromEvents(log);
      if C.Stands(Reference(), Working()) { OwnershipAgrees(history, log); }
    }

    method GetContracts() returns (contracts: map<string, ActiveContract>)
      ensures Valid() ==> forall name ::
                (if name in contracts then Some(contracts[name]) else None) == ContractAt(history, name)
    {
      contracts := ContractsFromEvents(log);
      if C.Stands(Reference(), Working()) {
        forall name ensures ContractAt(log, name) == ContractAt(history, name) { ContractsAgree(history, log, name); }
      }
    }

    method ActivateKillSwitch()
      modifies this
      ensures Stepped(old(Reference()), old(Working()), Reference(), Working(),
                      C.Activate, C.Done) && halted && log == old(log)
    {
      halted := true;
      Refines(old(Reference()), old(Working()), C.Activate);
    }

    method DeactivateKillSwitch()
      modifies this
      ensures Stepped(old(Reference()), old(Working()), Reference(), Working(),
                      C.Deactivate, C.Done) && !halted && log == old(log)
    {
      halted := false;
      Refines(old(Reference()), old(Working()), C.Deactivate);
    }
  }
}
