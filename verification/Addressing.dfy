/** What an accepted command records, and who is told of it. */
module Addressing {
  import opened Wrappers
  import opened Strings
  import opened Paths
  import opened Events
  import opened Ownership
  import opened Contracts
  import opened Coordination
  import opened Watcher

  // ---- What is recorded ----

  /** The payload in its recorded form: names and titles trimmed, paths in normal form, and nothing
      else changed. */
  ghost predicate Records(body: Body, recorded: Body) {
    match body
    case Ownership(paths, mode) =>
      && recorded.Ownership? && recorded.mode == mode && |recorded.paths| == |paths|
      && forall i | 0 <= i < |paths| :: NormalizeClaimPath(paths[i]) == Ok(recorded.paths[i])
    case Contract(name, revision, text) => recorded == Contract(Trim(name), revision, text)
    case Decision(title) => recorded == Decision(Trim(title))
    case _ => recorded == body
  }

  /** The payloads that are within the limits: up to 256 paths of up to 1024 characters that
      normalise, names and titles of up to 200, texts of contracts of up to 100,000. */
  ghost predicate Permitted(body: Body) {
    match body
    case Ownership(paths, _) =>
      && 1 <= |paths| <= 256
      && forall i | 0 <= i < |paths| :: 1 <= |Trim(paths[i])| <= 1024 && NormalizeClaimPath(paths[i]).Ok?
    case Contract(name, revision, text) => 1 <= |Trim(name)| <= 200 && revision >= 1 && |text| <= 100_000
    case Decision(title) => 1 <= |Trim(title)| <= 200
    case _ => true
  }

  ghost predicate SizedPaths(paths: seq<string>) {
    1 <= |paths| <= 256 && forall i | 0 <= i < |paths| :: 1 <= |Trim(paths[i])| <= 1024
  }

  lemma {:induction false} ValidPathsExactly(paths: seq<string>, mode: Mode)
    ensures Validated(Ownership(paths, mode))
            == if SizedPaths(paths) then Some(Ownership(TrimAll(paths), mode)) else None
  {
    if SizedPaths(paths) {
      forall p | p in paths ensures 1 <= |Trim(p)| <= 1024 { var i :| 0 <= i < |paths| && paths[i] == p; }
    } else if 1 <= |paths| <= 256 {
      var i :| 0 <= i < |paths| && !(1 <= |Trim(paths[i])| <= 1024);
      assert paths[i] in paths;
    }
  }

  lemma {:induction false} NormalizableExactly(paths: seq<string>)
    ensures NormalizeAll(paths).Ok? <==> forall i | 0 <= i < |paths| :: NormalizeClaimPath(paths[i]).Ok?
  {
    NormalizeAllPointwise(paths);
    if forall i | 0 <= i < |paths| :: NormalizeClaimPath(paths[i]).Ok? {
      forall p | p in paths ensures NormalizeClaimPath(p).Ok? { var i :| 0 <= i < |paths| && paths[i] == p; }
    }
  }

  lemma {:induction false} CheckedPaths(paths: seq<string>, mode: Mode)
    ensures CheckedBody(Ownership(paths, mode)).Ok? <==> SizedPaths(paths) && NormalizeAll(paths).Ok?
    ensures CheckedBody(Ownership(paths, mode)).Ok? ==>
              CheckedBody(Ownership(paths, mode)).value == Ownership(NormalizeAll(paths).value, mode)
  {
    ValidPathsExactly(paths, mode);
    NormalizeAllTrimmed(paths);
  }

  lemma {:induction false} PathsAreRecorded(paths: seq<string>, mode: Mode)
    ensures CheckedBody(Ownership(paths, mode)).Ok? <==> Permitted(Ownership(paths, mode))
    ensures CheckedBody(Ownership(paths, mode)).Ok? ==>
              Records(Ownership(paths, mode), CheckedBody(Ownership(paths, mode)).value)
  {
    CheckedPaths(paths, mode);
    NormalizableExactly(paths);
    NormalizeAllPointwise(paths);
  }

  lemma {:induction false} BodyIsRecorded(body: Body)
    ensures CheckedBody(body).Ok? <==> Permitted(body)
    ensures CheckedBody(body).Ok? ==> Records(body, CheckedBody(body).value)
  {
    if body.Ownership? { PathsAreRecorded(body.paths, body.mode); }
  }

  /** The event that an append writes for these arguments. */
  ghost predicate Carries(e: Event, log: seq<Event>, id: string, now: int, from: string, to: string, body: Body) {
    && e.seqNo == HighSeq(log) + 1 && e.id == id && e.timestamp == now
    && e.from == Trim(from) && e.to == Trim(to) && Records(body, e.body)
  }

  /** The names that an event may have. */
  predicate Nameable(name: string) {
    Trim(name) != "" && |Trim(name)| <= 128
  }

  /** The event is a revision of the contract of that name. */
  predicate Revises(e: Event, name: string) {
    match e.body
    case Contract(n, _, _) => n == name
    case _ => false
  }

  /** An append needs the kill switch off, a permitted payload, names, for an acknowledgement that its
      event exists or is below one that does, and for a contract a revision above all of its name. */
  ghost predicate Appendable(s: State, from: string, to: string, body: Body) {
    && !s.halted && Permitted(body) && Nameable(from) && Nameable(to)
    && (body.Ack? ==> exists e :: e in s.log && body.eventSeq <= e.seqNo)
    && (body.Contract? ==> forall e | e in s.log && Revises(e, Trim(body.name)) :: e.body.revision < body.revision)
  }

  lemma {:induction false} AckedExactly(log: seq<Event>, eventSeq: nat)
    ensures eventSeq <= HighSeq(log) <==> exists e :: e in log && eventSeq <= e.seqNo
  {
    HighSeqBounds(log);
  }

  lemma {:induction false} NewRevisionExactly(log: seq<Event>, name: string, revision: int)
    requires revision >= 1
    ensures revision > MaxRevision(log, name) <==> forall e | e in log && Revises(e, name) :: e.body.revision < revision
  {
    MaxRevisionBounds(log, name);
  }

  /** It is accepted exactly then, and the event carries just what was given. */
  lemma {:induction false} AppendsExactly(s: State, id: string, now: int, from: string, to: string, body: Body)
    ensures AppendLocked(s, id, now, from, to, body).Ok? <==> Appendable(s, from, to, body)
    ensures AppendLocked(s, id, now, from, to, body).Ok? ==>
              Carries(AppendLocked(s, id, now, from, to, body).value, s.log, id, now, from, to, body)
    ensures s.halted ==> AppendLocked(s, id, now, from, to, body) == Err(Halted)
    ensures !s.halted && Permitted(body) && body.Ack? && (forall e | e in s.log :: e.seqNo < body.eventSeq) ==>
              AppendLocked(s, id, now, from, to, body) == Err(FutureAck(HighSeq(s.log)))
    ensures !s.halted && Permitted(body) && body.Contract?
            && (exists e :: e in s.log && Revises(e, Trim(body.name)) && e.body.revision >= body.revision) ==>
              AppendLocked(s, id, now, from, to, body) == Err(StaleRevision(MaxRevision(s.log, Trim(body.name))))
  {
    BodyIsRecorded(body);
    if body.Ack? { AckedExactly(s.log, body.eventSeq); }
    if body.Contract? && Permitted(body) { NewRevisionExactly(s.log, Trim(body.name), body.revision); }
  }

  /** The revision a publication gets: the one asked for, or the next after all of that name. */
  ghost predicate NumberedFor(log: seq<Event>, name: string, asked: Option<int>, revision: int) {
    match asked
    case Some(n) => revision == n
    case None =>
      && revision >= 1 && (forall e | e in log && Revises(e, name) :: e.body.revision < revision)
      && (revision > 1 ==> exists e :: e in log && Revises(e, name) && e.body.revision == revision - 1)
  }

  lemma {:induction false} NextRevision(log: seq<Event>, name: string)
    ensures NumberedFor(log, name, None, MaxRevision(log, name) + 1)
  {
    MaxRevisionBounds(log, name);
  }

  /** What every accepted command records, from its arguments alone. */
  lemma {:induction false} AcceptedCarries(s: State, c: Command)
    requires !c.Compact? && !c.Activate? && !c.Deactivate? && Decide(s, c).Ok?
    ensures var e := Decide(s, c).value;
            match c
            case Emit(id, now, from, to, body) => Carries(e, s.log, id, now, from, to, body)
            case Claim(id, now, agent, paths, mode) => Carries(e, s.log, id, now, agent, "*", Ownership(paths, mode))
            case Release(id, now, agent, paths) =>
              NormalizeAll(paths).Ok?
              && Carries(e, s.log, id, now, agent, "*", Ownership(NormalizeAll(paths).value, Mode.Release))
            case Publish(id, now, from, name, text, revision) =>
              e.body.Contract? && NumberedFor(s.log, name, revision, e.body.revision)
              && Carries(e, s.log, id, now, from, "*", Contract(name, e.body.revision, text))
  {
    match c
    case Emit(id, now, from, to, body) => AppendsExactly(s, id, now, from, to, body);
    case Claim(id, now, agent, paths, mode) => AppendsExactly(s, id, now, agent, "*", Ownership(paths, mode));
    case Release(id, now, agent, paths) =>
      AppendsExactly(s, id, now, agent, "*", Ownership(NormalizeAll(paths).value, Mode.Release));
    case Publish(id, now, from, name, text, revision) =>
      var number := if revision.Some? then revision.value else MaxRevision(s.log, name) + 1;
      AppendsExactly(s, id, now, from, "*", Contract(name, number, text));
      NextRevision(s.log, name);
  }

  /** A claim is accepted exactly when it can be appended and none of its paths overlaps one that
      another agent owns, unless both sides are shared. */
  lemma {:induction false} ClaimedExactly(s: State, id: string, now: int, agent: string, paths: seq<string>, mode: Mode)
    requires FoldOwnership(s.log).Ok?
    ensures var own := FoldOwnership(s.log).value;
            Decide(s, Command.Claim(id, now, agent, paths, mode)).Ok?
            <==> && Appendable(s, agent, "*", Ownership(paths, mode))
                 && forall i, q | 0 <= i < |paths| && q in own && own[q].agent != agent
                                  && PathsOverlap(NormalizeClaimPath(paths[i]).value, q) ::
                      own[q].mode.Shared? && mode.Shared?
  {
    var own := FoldOwnership(s.log).value;
    AppendsExactly(s, id, now, agent, "*", Ownership(paths, mode));
    NormalizableExactly(paths);
    NormalizeAllPointwise(paths);
    if NormalizeAll(paths).Ok? {
      NoClashExactly(own, paths, NormalizeAll(paths).value, agent, mode);
    }
  }

  lemma {:induction false} NoClashExactly(own: OwnershipMap, paths: seq<string>, requested: seq<string>, agent: string,
                                          mode: Mode)
    requires |requested| == |paths|
    requires forall i | 0 <= i < |paths| :: NormalizeClaimPath(paths[i]) == Ok(requested[i])
    ensures !Conflicting(own, requested, agent, mode)
            <==> forall i, q | 0 <= i < |paths| && q in own && own[q].agent != agent
                               && PathsOverlap(NormalizeClaimPath(paths[i]).value, q) ::
                   own[q].mode.Shared? && mode.Shared?
  {
    if Conflicting(own, requested, agent, mode) {
      var p, q :| p in requested && q in own && Clash(own, p, q, agent, mode);
      var i :| 0 <= i < |requested| && requested[i] == p;
    }
    if i, q :| 0 <= i < |paths| && q in own && own[q].agent != agent
               && PathsOverlap(NormalizeClaimPath(paths[i]).value, q) && !(own[q].mode.Shared? && mode.Shared?) {
      assert requested[i] in requested && Clash(own, requested[i], q, agent, mode);
    }
  }

  lemma {:induction false} ForeignExactly(own: OwnershipMap, paths: seq<string>, agent: string)
    ensures FirstForeign(own, paths, agent).Some? <==> exists p :: p in paths && p in own && own[p].agent != agent
    ensures FirstForeign(own, paths, agent).Some? ==>
              var p := FirstForeign(own, paths, agent).value; p in paths && p in own && own[p].agent != agent
  {
    if paths != [] { ForeignExactly(own, paths[1..], agent); }
  }

  /** A release that can be appended is refused exactly for a path that another agent owns, and the
      refusal names such a path and its owner. */
  lemma {:induction false} ReleasedExactly(s: State, id: string, now: int, agent: string, paths: seq<string>)
    requires FoldOwnership(s.log).Ok? && NormalizeAll(paths).Ok?
    ensures var own, normal := FoldOwnership(s.log).value, NormalizeAll(paths).value;
            var r := Decide(s, Command.Release(id, now, agent, paths));
            && (r.Ok? <==> Appendable(s, agent, "*", Ownership(normal, Mode.Release))
                           && forall p | p in normal && p in own :: own[p].agent == agent)
            && ((exists p :: p in normal && p in own && own[p].agent != agent) ==>
                  r.Err? && r.error.ReleaseConflict? && r.error.path in normal && r.error.path in own
                  && own[r.error.path].agent == r.error.owner != agent)
  {
    var normal := NormalizeAll(paths).value;
    ForeignExactly(FoldOwnership(s.log).value, normal, agent);
    AppendsExactly(s, id, now, agent, "*", Ownership(normal, Mode.Release));
  }

  // ---- Who is told ----

  lemma {:induction false} NothingAbove(log: seq<Event>, agent: Option<string>, low: int, high: int)
    requires forall e | e in log :: e.seqNo <= low
    ensures Select(log, agent, low, high) == []
  {
    if log != [] {
      assert log[|log| - 1] in log;
      NothingAbove(log[..|log| - 1], agent, low, high);
    }
  }

  lemma {:induction false} SelectNew(log: seq<Event>, e: Event, agent: Option<string>)
    requires e.seqNo == HighSeq(log) + 1
    ensures Select(log + [e], agent, HighSeq(log), e.seqNo) == if Relevant(agent, e) then [e] else []
  {
    HighSeqBounds(log);
    NothingAbove(log, agent, HighSeq(log), e.seqNo);
    assert (log + [e])[..|log|] == log;
  }

  lemma {:induction false} AppendedToWatched(log: seq<Event>, e: Event, c: string)
    requires Increasing(log) && e.seqNo == HighSeq(log) + 1
    ensures Deliver(Some(c), HighSeq(log), log + [e])
            == (HighSeq(log) + 1, if c == e.from || c == e.to || e.to == "*" then [e] else [])
  {
    AppendIncreasing(log, e);
    SelectNew(log, e, Some(c));
  }

  /** From one agent to another: after an accepted emission, a watcher that had seen the log until then
      is handed that event if its agent is the sender or the addressee or the event is addressed to
      all, and nothing otherwise. */
  lemma {:induction false} EmittedToWatched(s: State, id: string, now: int, a: string, b: string, body: Body, c: string)
    requires Increasing(s.log) && Trimmed(a) && Trimmed(b)
    requires Decide(s, Emit(id, now, a, b, body)).Ok?
    ensures var e := Decide(s, Emit(id, now, a, b, body)).value;
            && e.from == a && e.to == b && e.id == id
            && Next(s, Emit(id, now, a, b, body), true).0.log == s.log + [e]
            && Deliver(Some(c), HighSeq(s.log), s.log + [e])
               == (HighSeq(s.log) + 1, if c == a || c == b || b == "*" then [e] else [])
  {
    var e := Decide(s, Emit(id, now, a, b, body)).value;
    AppendsExactly(s, id, now, a, b, body);
    TrimmedStays(a);
    TrimmedStays(b);
    AppendedToWatched(s.log, e, c);
  }
}
