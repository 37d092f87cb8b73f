/** The coordination log as a state machine of deciding, appending and compacting. */
module Coordination {
  import opened Wrappers
  import opened Strings
  import opened Paths
  import opened Events
  import opened StateKeys
  import opened Ownership
  import opened Retention
  import opened Contracts

  datatype Error =
    | Halted
    | InvalidPayload
    | BadPath(pathError: PathError)
    | OwnershipConflict
    | ReleaseConflict(path: string, owner: string)
    | StaleRevision(current: int)
    | FutureAck(watermark: int)
    | BadCompaction(compactionError: CompactionError)

  datatype State = State(log: seq<Event>, halted: bool)

  datatype Command =
    | Emit(id: string, now: int, from: string, to: string, body: Body)
    | Claim(id: string, now: int, agent: string, paths: seq<string>, mode: Mode)
    | Release(id: string, now: int, agent: string, paths: seq<string>)
    | Publish(id: string, now: int, from: string, name: string, text: string, revision: Option<int>)
    | Compact(id: string, now: int, cutoff: int, maxEvents: int, maxAgeDays: int)
    | Activate
    | Deactivate

  datatype Outcome = Appended(event: Event) | Rejected(error: Error) | Done

  function Report(r: Result<Event, Error>): Outcome {
    match r
    case Ok(e) => Appended(e)
    case Err(error) => Rejected(error)
  }

  // ---- Appending ----

  function TrimAll(paths: seq<string>): (r: seq<string>)
    ensures |r| == |paths| && forall i | 0 <= i < |paths| :: r[i] == Trim(paths[i])
  {
    seq(|paths|, i requires 0 <= i < |paths| => Trim(paths[i]))
  }

  /** The payload schemas, with the rewriting they do: names, titles and paths are trimmed. */
  function Validated(body: Body): Option<Body> {
    match body
    case Ownership(paths, mode) =>
      if 1 <= |paths| <= 256 && forall p | p in paths :: 1 <= |Trim(p)| <= 1024
      then Some(Ownership(TrimAll(paths), mode)) else None
    case Contract(name, revision, text) =>
      if 1 <= |Trim(name)| <= 200 && revision >= 1 && |text| <= 100_000
      then Some(Contract(Trim(name), revision, text)) else None
    case Decision(title) =>
      if 1 <= |Trim(title)| <= 200 then Some(Decision(Trim(title))) else None
    case _ => Some(body)
  }

  function CheckedBody(body: Body): Result<Body, Error> {
    match Validated(body)
    case None => Err(InvalidPayload)
    case Some(valid) =>
      if !valid.Ownership? then Ok(valid)
      else
        match NormalizeAll(valid.paths)
        case Err(error) => Err(BadPath(error))
        case Ok(paths) => Ok(Ownership(paths, valid.mode))
  }

  /** appendLocked: kill switch, payload, watermark and revision checks, then the next number. */
  function AppendLocked(s: State, id: string, now: int, from: string, to: string, body: Body): Result<Event, Error> {
    if s.halted then Err(Halted)
    else
      match CheckedBody(body)
      case Err(error) => Err(error)
      case Ok(checked) => AppendChecked(s.log, id, now, from, to, checked)
  }

  function AppendChecked(log: seq<Event>, id: string, now: int, from: string, to: string, checked: Body)
    : Result<Event, Error>
  {
    var high := HighSeq(log);
    if checked.Ack? && checked.eventSeq > high then Err(FutureAck(high))
    else if checked.Contract? && checked.revision <= MaxRevision(log, checked.name) then
      Err(StaleRevision(MaxRevision(log, checked.name)))
    else if !ValidName(from) || !ValidName(to) then Err(InvalidPayload)
    else Ok(Event(high + 1, id, Trim(from), Trim(to), now, checked))
  }

  /** Agent names are trimmed by the event schema. */
  predicate ValidName(name: string) {
    1 <= |Trim(name)| <= 128
  }

  function FirstForeign(own: OwnershipMap, paths: seq<string>, agent: string): Option<string> {
    if paths == [] then None
    else if paths[0] in own && own[paths[0]].agent != agent then Some(paths[0])
    else FirstForeign(own, paths[1..], agent)
  }

  /** The decision of each command on a given log, before anything is written. */
  ghost function Decide(s: State, c: Command): Result<Event, Error>
    requires !c.Compact? && !c.Activate? && !c.Deactivate?
  {
    match c
    case Emit(id, now, from, to, body) => AppendLocked(s, id, now, from, to, body)
    case Publish(id, now, from, name, text, revision) =>
      var number := if revision.Some? then revision.value else MaxRevision(s.log, name) + 1;
      AppendLocked(s, id, now, from, "*", Contract(name, number, text))
    case Claim(id, now, agent, paths, mode) =>
      (match FoldOwnership(s.log)
       case Err(error) => Err(BadPath(error))
       case Ok(own) =>
         match NormalizeAll(paths)
         case Err(error) => Err(BadPath(error))
         case Ok(requested) =>
           if Conflicting(own, requested, agent, mode) then Err(OwnershipConflict)
           else AppendLocked(s, id, now, agent, "*", Ownership(paths, mode)))
    case Release(id, now, agent, paths) =>
      match FoldOwnership(s.log)
      case Err(error) => Err(BadPath(error))
      case Ok(own) =>
        match NormalizeAll(paths)
        case Err(error) => Err(BadPath(error))
        case Ok(normalized) =>
          var foreign := FirstForeign(own, normalized, agent);
          if foreign.Some? then
            Err(ReleaseConflict(foreign.value, if foreign.value in own then own[foreign.value].agent else ""))
          else AppendLocked(s, id, now, agent, "*", Ownership(normalized, Mode.Release))
  }

  /** One command; with compacting off, compaction only reports what it would report. */
  ghost function Next(s: State, c: Command, compacting: bool): (State, Outcome) {
    match c
    case Activate => (s.(halted := true), Done)
    case Deactivate => (s.(halted := false), Done)
    case Compact(id, now, cutoff, maxEvents, maxAgeDays) =>
      if s.halted then (s, Rejected(Halted))
      else if maxEvents < 1 then (s, Rejected(BadCompaction(BadMaxEvents)))
      else if maxAgeDays < 0 then (s, Rejected(BadCompaction(BadMaxAge)))
      else if !compacting then (s, Done)
      else (s.(log := CompactAt(s.log, KeepStart(s.log, cutoff, maxEvents), id, now)), Done)
    case _ =>
      match Decide(s, c)
      case Err(error) => (s, Rejected(error))
      case Ok(e) => (s.(log := s.log + [e]), Appended(e))
  }

  ghost function Run(s: State, commands: seq<Command>, compacting: bool): (State, seq<Outcome>)
    decreases |commands|
  {
    if commands == [] then (s, [])
    else
      var (s1, outcome) := Next(s, commands[0], compacting);
      var (s2, outcomes) := Run(s1, commands[1..], compacting);
      (s2, [outcome] + outcomes)
  }

  lemma {:induction false} RunSnoc(s: State, commands: seq<Command>, c: Command, compacting: bool)
    ensures Run(s, commands + [c], compacting).0 == Next(Run(s, commands, compacting).0, c, compacting).0
    decreases |commands|
  {
    if commands == [] {
      assert commands + [c] == [c] && [c][1..] == [];
    } else {
      assert (commands + [c])[1..] == commands[1..] + [c];
      RunSnoc(Next(s, commands[0], compacting).0, commands[1..], c, compacting);
    }
  }

  // ---- The conditions the code needs of its callers ----

  /** Ownership changes only go through claim and release, and their paths normalise to paths that
      stay put. */
  ghost predicate PlainNames(c: Command) {
    match c
    case Emit(_, _, _, _, body) => !body.Ownership?
    case Claim(_, _, _, paths, mode) => !mode.Release? && StablePaths(paths)
    case Release(_, _, _, paths) => StablePaths(paths)
    case _ => true
  }

  ghost predicate StablePaths(paths: seq<string>) {
    forall p | p in paths && NormalizeClaimPath(p).Ok? :: Stable(NormalizeClaimPath(p).value)
  }

  /** The same, with agents that are trimmed already and no comma or colon to confuse the state keys. */
  ghost predicate CleanNames(c: Command) {
    match c
    case Emit(_, _, _, _, body) => !body.Ownership?
    case Claim(_, _, agent, paths, mode) => !mode.Release? && Trimmed(agent) && ':' !in agent && CleanPaths(paths)
    case Release(_, _, agent, paths) => Trimmed(agent) && ':' !in agent && CleanPaths(paths)
    case _ => true
  }

  ghost predicate CleanPaths(paths: seq<string>) {
    forall p | p in paths && NormalizeClaimPath(p).Ok? ::
      Stable(NormalizeClaimPath(p).value) && ',' !in NormalizeClaimPath(p).value
  }

  /** An accepted claim that replaces no other agent's entry at the very same path. */
  ghost predicate NoCrossClaim(s: State, c: Command) {
    c.Claim? && Decide(s, c).Ok? ==>
      forall p | p in c.paths && NormalizeClaimPath(p).Ok? ::
        var owner := OwnerAt(s.log, NormalizeClaimPath(p).value);
        owner.Some? ==> owner.value.agent == c.agent
  }

  ghost predicate NamesTrimmed(log: seq<Event>) {
    forall e | e in log && e.body.Contract? :: Trimmed(e.body.name)
  }

  ghost predicate OwnersTrimmed(own: OwnershipMap) {
    forall p | p in own :: Trimmed(own[p].agent)
  }

  /** What every reachable history satisfies, takeovers or not. */
  ghost predicate Orderly(log: seq<Event>) {
    && Increasing(log) && Readable(log) && RevisionsIncrease(log) && NamesTrimmed(log)
    && FoldOwnership(log).Ok?
    && CanonicalKeys(FoldOwnership(log).value) && Exclusion(FoldOwnership(log).value)
    && OwnersTrimmed(FoldOwnership(log).value)
  }

  /** The same with names that suit the state keys. */
  ghost predicate Sound(log: seq<Event>) {
    Orderly(log) && AllKeySafe(log)
  }

  // ---- Stored paths are the requested ones ----

  lemma {:induction false} NormalizeAllPointwise(paths: seq<string>)
    ensures NormalizeAll(paths).Ok? <==> forall p | p in paths :: NormalizeClaimPath(p).Ok?
    ensures NormalizeAll(paths).Ok? ==>
              && |NormalizeAll(paths).value| == |paths|
              && forall i | 0 <= i < |paths| :: NormalizeClaimPath(paths[i]) == Ok(NormalizeAll(paths).value[i])
  {
    if paths != [] {
      var init, last := paths[..|paths| - 1], paths[|paths| - 1];
      assert paths == init + [last];
      NormalizeAllPointwise(init);
    }
  }

  lemma {:induction false} TrimTwice(p: string)
    ensures Trim(Trim(p)) == Trim(p) && NormalizeClaimPath(Trim(p)) == NormalizeClaimPath(p)
  {
    TrimIsTrimmed(p);
    TrimIsTrimmed(Trim(p));
  }

  lemma {:induction false} NormalizeAllTrimmed(paths: seq<string>)
    ensures NormalizeAll(TrimAll(paths)) == NormalizeAll(paths)
  {
    if paths != [] {
      var init, last := paths[..|paths| - 1], paths[|paths| - 1];
      NormalizeAllTrimmed(init);
      assert TrimAll(paths)[..|paths| - 1] == TrimAll(init);
      TrimTwice(last);
    }
  }

  lemma {:induction false} StablePathsNormalized(paths: seq<string>)
    requires StablePaths(paths) && NormalizeAll(paths).Ok?
    ensures var normalized := NormalizeAll(paths).value;
            && NormalizeAll(normalized) == Ok(normalized)
            && forall q | q in normalized :: Stable(q) && Canonical(q)
  {
    var normalized := NormalizeAll(paths).value;
    NormalizeAllPointwise(paths);
    forall q | q in normalized ensures Stable(q) && Canonical(q) {
      var i :| 0 <= i < |normalized| && normalized[i] == q;
      assert paths[i] in paths;
      NormalizedIsCanonical(paths[i]);
    }
    NormalizeStable(normalized);
  }

  /** What an accepted ownership command writes: exactly the normalised paths it asked for. */
  ghost predicate Writes(s: State, c: Command, e: Event)
    requires c.Claim? || c.Release?
  {
    && FoldOwnership(s.log).Ok? && NormalizeAll(c.paths).Ok?
    && var requested := NormalizeAll(c.paths).value;
    && e.from == Trim(c.agent)
    && e.body == Ownership(requested, if c.Claim? then c.mode else Mode.Release)
    && requested != []
    && (forall q | q in requested :: Stable(q) && Canonical(q))
    && (c.Claim? ==> !Conflicting(FoldOwnership(s.log).value, requested, c.agent, c.mode))
    && (c.Release? ==> FirstForeign(FoldOwnership(s.log).value, requested, c.agent).None?)
  }

  lemma {:induction false} OwnershipBody(paths: seq<string>, mode: Mode)
    requires CheckedBody(Ownership(paths, mode)).Ok?
    ensures NormalizeAll(paths).Ok? && paths != []
    ensures CheckedBody(Ownership(paths, mode)) == Ok(Ownership(NormalizeAll(paths).value, mode))
  {
    NormalizeAllTrimmed(paths);
  }

  lemma {:induction false} ClaimWrites(s: State, c: Command)
    requires c.Claim? && PlainNames(c) && Decide(s, c).Ok?
    ensures Writes(s, c, Decide(s, c).value)
  {
    TrimIsTrimmed(c.agent);
    OwnershipBody(c.paths, c.mode);
    StablePathsNormalized(c.paths);
    NormalizeAllPointwise(c.paths);
  }

  lemma {:induction false} ReleaseWrites(s: State, c: Command)
    requires c.Release? && PlainNames(c) && Decide(s, c).Ok?
    ensures Writes(s, c, Decide(s, c).value)
  {
    var requested := NormalizeAll(c.paths).value;
    TrimIsTrimmed(c.agent);
    StablePathsNormalized(c.paths);
    OwnershipBody(requested, Mode.Release);
  }

  lemma {:induction false} StoredPaths(s: State, c: Command)
    requires (c.Claim? || c.Release?) && PlainNames(c) && Decide(s, c).Ok?
    ensures Writes(s, c, Decide(s, c).value)
  {
    if c.Claim? { ClaimWrites(s, c); } else { ReleaseWrites(s, c); }
  }

  /** With clean names it is written under the name given, and under a key of its own. */
  lemma {:induction false} StoredSafely(s: State, c: Command)
    requires (c.Claim? || c.Release?) && CleanNames(c) && Decide(s, c).Ok?
    ensures var e := Decide(s, c).value; e.from == c.agent && e.body.Ownership? && KeySafe(e)
  {
    StoredPaths(s, c);
    TrimIsTrimmed(c.agent);
    NormalizeAllPointwise(c.paths);
    var requested := NormalizeAll(c.paths).value;
    forall i | 0 <= i < |requested| ensures ',' !in requested[i] {
      assert c.paths[i] in c.paths;
    }
  }

  lemma {:induction false} NoForeign(own: OwnershipMap, paths: seq<string>, agent: string)
    ensures FirstForeign(own, paths, agent).None? <==>
              forall p | p in paths && p in own :: own[p].agent == agent
  {
    if paths != [] {
      NoForeign(own, paths[1..], agent);
      assert paths == [paths[0]] + paths[1..];
    }
  }

  // ---- One step ----

  lemma {:induction false} AppendFacts(s: State, c: Command)
    requires !c.Compact? && !c.Activate? && !c.Deactivate? && PlainNames(c) && Decide(s, c).Ok?
    ensures var e := Decide(s, c).value;
            && !s.halted && e.seqNo == HighSeq(s.log) + 1
            && (e.body.Ownership? <==> c.Claim? || c.Release?)
            && (e.body.Contract? ==> Trimmed(e.body.name) && e.body.revision >= 1
                                     && e.body.revision > MaxRevision(s.log, e.body.name))
  {
    if c.Publish? {
      TrimIsTrimmed(c.name);
    } else if c.Emit? && c.body.Contract? {
      TrimIsTrimmed(c.body.name);
    }
  }

  /** A claim is checked under the name given and recorded under the trimmed one; owners in the
      map are trimmed, so the check is the stricter of the two. */
  lemma {:induction false} CheckedUnderTrimmed(own: OwnershipMap, paths: seq<string>, agent: string, mode: Mode)
    requires OwnersTrimmed(own) && !Conflicting(own, paths, agent, mode)
    ensures !Conflicting(own, paths, Trim(agent), mode)
  {
    TrimIsTrimmed(agent);
    forall p, q | p in paths && q in own ensures !Clash(own, p, q, Trim(agent), mode) {
      assert !Clash(own, p, q, agent, mode);
    }
  }

  /** Every command keeps a history orderly: order, readability, exclusion and revisions. */
  lemma {:induction false} StepKeepsOrderly(s: State, c: Command)
    requires Orderly(s.log) && PlainNames(c)
    ensures Orderly(Next(s, c, false).0.log)
  {
    if !c.Compact? && !c.Activate? && !c.Deactivate? && Decide(s, c).Ok? {
      var e := Decide(s, c).value;
      AppendFacts(s, c);
      AppendIncreasing(s.log, e);
      if e.body.Ownership? {
        StoredPaths(s, c);
        TrimIsTrimmed(c.agent);
        var paths := NormalizeAll(c.paths).value;
        if c.Claim? { CheckedUnderTrimmed(FoldOwnership(s.log).value, paths, c.agent, c.mode); }
        OwnershipEventKeepsOrderly(s.log, e, paths);
      } else {
        OtherEventKeepsOrderly(s.log, e);
      }
    }
  }

  lemma {:induction false} OwnersStayTrimmed(own: OwnershipMap, paths: seq<string>, e: Event)
    requires e.body.Ownership? && OwnersTrimmed(own) && Trimmed(e.from)
    ensures OwnersTrimmed(ApplyPaths(own, paths, e))
  {
    if paths != [] {
      OwnersStayTrimmed(own, paths[..|paths| - 1], e);
    }
  }

  lemma {:induction false} FoldNext(log: seq<Event>, e: Event, paths: seq<string>)
    requires FoldOwnership(log).Ok? && e.body.Ownership? && e.body.paths == paths
    requires forall q | q in paths :: Stable(q)
    ensures FoldOwnership(log + [e]) == Ok(ApplyPaths(FoldOwnership(log).value, paths, e))
    ensures Readable(log) ==> Readable(log + [e])
  {
    NormalizeStable(paths);
    assert (log + [e])[..|log|] == log;
  }

  lemma {:induction false} OwnershipEventKeepsOrderly(log: seq<Event>, e: Event, paths: seq<string>)
    requires Orderly(log) && Increasing(log + [e])
    requires e.body.Ownership? && e.body.paths == paths && Trimmed(e.from)
    requires forall q | q in paths :: Stable(q) && Canonical(q)
    requires !e.body.mode.Release? ==> !Conflicting(FoldOwnership(log).value, paths, e.from, e.body.mode)
    ensures Orderly(log + [e])
  {
    var own := FoldOwnership(log).value;
    EventKeepsExclusion(own, paths, e);
    OwnersStayTrimmed(own, paths, e);
    FoldNext(log, e, paths);
    OtherKeepsRevisions(log, e);
  }

  lemma {:induction false} OtherEventKeepsOrderly(log: seq<Event>, e: Event)
    requires Orderly(log) && Increasing(log + [e]) && e.seqNo == HighSeq(log) + 1 && !e.body.Ownership?
    requires e.body.Contract? ==> Trimmed(e.body.name) && e.body.revision > MaxRevision(log, e.body.name)
    ensures Orderly(log + [e])
  {
    assert (log + [e])[..|log|] == log;
    if e.body.Contract? { StaleCheckIsExact(log, e); } else { OtherKeepsRevisions(log, e); }
  }

  lemma {:induction false} StepKeepsSound(s: State, c: Command)
    requires Sound(s.log) && CleanNames(c)
    ensures Sound(Next(s, c, false).0.log)
  {
    StepKeepsOrderly(s, c);
    if !c.Compact? && !c.Activate? && !c.Deactivate? && Decide(s, c).Ok? {
      AppendFacts(s, c);
      if c.Claim? || c.Release? { StoredSafely(s, c); }
    }
  }

  lemma {:induction false} StepKeepsTakeoverFree(s: State, c: Command)
    requires Sound(s.log) && TakeoverFree(s.log) && CleanNames(c) && NoCrossClaim(s, c)
    ensures TakeoverFree(Next(s, c, false).0.log)
  {
    if !c.Compact? && !c.Activate? && !c.Deactivate? && Decide(s, c).Ok? {
      var e := Decide(s, c).value;
      assert (s.log + [e])[..|s.log|] == s.log;
      AppendFacts(s, c);
      if e.body.Ownership? {
        StoredPaths(s, c);
        StoredSafely(s, c);
        AcceptedTakesNothing(s, c, e);
      }
    }
  }

  lemma {:induction false} AcceptedTakesNothing(s: State, c: Command, e: Event)
    requires Readable(s.log) && (c.Claim? || c.Release?) && Writes(s, c, e) && e.from == c.agent
    requires c.Claim? ==> Decide(s, c).Ok? && NoCrossClaim(s, c)
    ensures NoTakeover(s.log, e)
  {
    FoldMeaning(s.log);
    var own := FoldOwnership(s.log).value;
    NoForeign(own, e.body.paths, c.agent);
    NormalizeAllPointwise(c.paths);
    forall p | Touches(e, p) && OwnerAt(s.log, p).Some? ensures OwnerAt(s.log, p).value.agent == e.from {
      assert Lookup(own, p) == OwnerAt(s.log, p);
      if c.Claim? {
        var i :| 0 <= i < |e.body.paths| && e.body.paths[i] == p;
        assert c.paths[i] in c.paths;
      }
    }
  }

  /** The working log stands for a sound, takeover-free history under the same kill switch. */
  ghost predicate Stands(history: State, working: State) {
    && Sound(history.log) && TakeoverFree(history.log)
    && Simulates(history.log, working.log)
    && history.halted == working.halted
  }

  /** What a decision looks at, apart from ownership. */
  ghost predicate SameCounters(history: State, working: State) {
    && history.halted == working.halted && HighSeq(history.log) == HighSeq(working.log)
    && forall name :: MaxRevision(working.log, name) == MaxRevision(history.log, name)
  }

  lemma {:induction false} SameAppend(history: State, working: State, id: string, now: int, from: string, to: string,
                                      body: Body)
    requires SameCounters(history, working)
    ensures AppendLocked(working, id, now, from, to, body) == AppendLocked(history, id, now, from, to, body)
  {
  }

  lemma {:induction false} StandsCounts(history: State, working: State)
    requires Stands(history, working)
    ensures SameCounters(history, working) && FoldOwnership(working.log) == FoldOwnership(history.log)
  {
    OwnershipAgrees(history.log, working.log);
    forall name ensures MaxRevision(working.log, name) == MaxRevision(history.log, name) {
      ContractsAgree(history.log, working.log, name);
    }
  }

  /** On a log that stands for the history, every command decides as it would on the history. */
  lemma {:induction false} SameDecision(history: State, working: State, c: Command)
    requires Stands(history, working) && !c.Compact? && !c.Activate? && !c.Deactivate?
    ensures Decide(working, c) == Decide(history, c)
  {
    StandsCounts(history, working);
    forall id, now, from, to, body
      ensures AppendLocked(working, id, now, from, to, body) == AppendLocked(history, id, now, from, to, body)
    {
      SameAppend(history, working, id, now, from, to, body);
    }
  }

  lemma {:induction false} StepRefines(history: State, working: State, c: Command)
    requires Stands(history, working) && CleanNames(c) && NoCrossClaim(history, c)
    ensures Next(working, c, true).1 == Next(history, c, false).1
    ensures Stands(Next(history, c, false).0, Next(working, c, true).0)
  {
    StepKeepsSound(history, c);
    StepKeepsTakeoverFree(history, c);
    match c
    case Activate =>
    case Deactivate =>
    case Compact(id, now, cutoff, maxEvents, maxAgeDays) =>
      if !working.halted && maxEvents >= 1 && maxAgeDays >= 0 {
        CompactSimulates(history.log, working.log, KeepStart(working.log, cutoff, maxEvents), id, now);
      }
    case _ =>
      SameDecision(history, working, c);
      if Decide(history, c).Ok? {
        AppendFacts(history, c);
        AppendSimulates(history.log, working.log, Decide(history, c).value);
      }
  }

  // ---- Whole runs ----

  /** Every command of the run meets the callers' conditions in the reference state it starts from. */
  ghost predicate CleanRun(s: State, commands: seq<Command>)
    decreases |commands|
  {
    commands == [] ||
    (CleanNames(commands[0]) && NoCrossClaim(s, commands[0])
     && CleanRun(Next(s, commands[0], false).0, commands[1..]))
  }

  lemma {:induction false} RunRefinesFrom(history: State, working: State, commands: seq<Command>)
    requires Stands(history, working) && CleanRun(history, commands)
    ensures Run(working, commands, true).1 == Run(history, commands, false).1
    ensures Stands(Run(history, commands, false).0, Run(working, commands, true).0)
    decreases |commands|
  {
    if commands != [] {
      StepRefines(history, working, commands[0]);
      RunRefinesFrom(Next(history, commands[0], false).0, Next(working, commands[0], true).0, commands[1..]);
    }
  }

  const Start := State([], false)

  lemma {:induction false} StartStands()
    ensures Stands(Start, Start)
  {
  }

  /** Whole-run refinement: with any number of compactions anywhere, every claim, release,
      publication, acknowledgement and emission is accepted or rejected, numbered and recorded
      exactly as if the log had never been compacted, and the ownership map, the active
      contracts and the watermark at the end are the same. */
  lemma {:induction false} CompactionIsInvisible(commands: seq<Command>)
    requires CleanRun(Start, commands)
    ensures var reference, actual := Run(Start, commands, false), Run(Start, commands, true);
            && actual.1 == reference.1
            && FoldOwnership(actual.0.log) == FoldOwnership(reference.0.log)
            && (forall name :: ContractAt(actual.0.log, name) == ContractAt(reference.0.log, name))
            && HighSeq(actual.0.log) == HighSeq(reference.0.log)
            && actual.0.halted == reference.0.halted
  {
    StartStands();
    RunRefinesFrom(Start, Start, commands);
    var reference, actual := Run(Start, commands, false), Run(Start, commands, true);
    OwnershipAgrees(reference.0.log, actual.0.log);
    forall name ensures ContractAt(actual.0.log, name) == ContractAt(reference.0.log, name) {
      ContractsAgree(reference.0.log, actual.0.log, name);
    }
  }

  ghost predicate AllCleanNames(commands: seq<Command>) {
    forall c | c in commands :: CleanNames(c)
  }

  lemma {:induction false} RunKeepsSound(s: State, commands: seq<Command>)
    requires Sound(s.log) && AllCleanNames(commands)
    ensures Sound(Run(s, commands, false).0.log)
    decreases |commands|
  {
    if commands != [] {
      StepKeepsSound(s, commands[0]);
      assert forall c | c in commands[1..] :: c in commands;
      RunKeepsSound(Next(s, commands[0], false).0, commands[1..]);
    }
  }

  lemma {:induction false} RunKeepsOrderly(s: State, commands: seq<Command>)
    requires Orderly(s.log) && forall c | c in commands :: PlainNames(c)
    ensures Orderly(Run(s, commands, false).0.log)
    decreases |commands|
  {
    if commands != [] {
      StepKeepsOrderly(s, commands[0]);
      assert forall c | c in commands[1..] :: c in commands;
      RunKeepsOrderly(Next(s, commands[0], false).0, commands[1..]);
    }
  }

  /** Exclusion over files in every state reached by claims and releases of either mode, whatever
      the names. */
  lemma {:induction false} ExclusionAlways(commands: seq<Command>, p: string, q: string, file: seq<string>)
    requires forall c | c in commands :: PlainNames(c)
    ensures FoldOwnership(Run(Start, commands, false).0.log).Ok?
    ensures var own := FoldOwnership(Run(Start, commands, false).0.log).value;
            p in own && q in own && Covers(p, file) && Covers(q, file) && own[p].agent != own[q].agent
            ==> own[p].mode.Shared? && own[q].mode.Shared?
  {
    StartStands();
    RunKeepsOrderly(Start, commands);
  }

  /** The same with compactions in the run, when no claim replaces another agent's entry. */
  lemma {:induction false} ExclusionWithCompaction(commands: seq<Command>)
    requires CleanRun(Start, commands)
    ensures var own := FoldOwnership(Run(Start, commands, true).0.log);
            own.Ok? && CanonicalKeys(own.value) && Exclusion(own.value)
  {
    StartStands();
    RunRefinesFrom(Start, Start, commands);
    OwnershipAgrees(Run(Start, commands, false).0.log, Run(Start, commands, true).0.log);
  }

  /** An accepted exclusive claim never replaces another agent's entry, so a run whose claims
      are all exclusive meets the condition without further care. */
  lemma {:induction false} ExclusiveRunsAreClean(s: State, commands: seq<Command>)
    requires Sound(s.log) && AllCleanNames(commands)
    requires forall c | c in commands && c.Claim? :: c.mode.Exclusive?
    ensures CleanRun(s, commands)
    decreases |commands|
  {
    if commands != [] {
      var c := commands[0];
      assert c in commands;
      if c.Claim? && Decide(s, c).Ok? { ExclusiveClaimIsOwn(s, c); }
      StepKeepsSound(s, c);
      assert forall d | d in commands[1..] :: d in commands;
      ExclusiveRunsAreClean(Next(s, c, false).0, commands[1..]);
    }
  }

  lemma {:induction false} ExclusiveClaimIsOwn(s: State, c: Command)
    requires Sound(s.log) && CleanNames(c) && c.Claim? && c.mode.Exclusive? && Decide(s, c).Ok?
    ensures NoCrossClaim(s, c)
  {
    StoredPaths(s, c);
    FoldMeaning(s.log);
    NormalizeAllPointwise(c.paths);
    var own := FoldOwnership(s.log).value;
    var requested := NormalizeAll(c.paths).value;
    forall p | p in c.paths && OwnerAt(s.log, NormalizeClaimPath(p).value).Some?
      ensures OwnerAt(s.log, NormalizeClaimPath(p).value).value.agent == c.agent
    {
      var i :| 0 <= i < |c.paths| && c.paths[i] == p;
      assert Lookup(own, requested[i]) == OwnerAt(s.log, requested[i]);
      FreeOrOwn(own, requested, requested[i], c.agent, c.mode);
    }
  }

  lemma {:induction false} FreeOrOwn(own: OwnershipMap, requested: seq<string>, path: string, agent: string, mode: Mode)
    requires !Conflicting(own, requested, agent, mode) && path in requested && path in own && !mode.Shared?
    ensures own[path].agent == agent
  {
    assert !Clash(own, path, path, agent, mode);
  }

  // ---- Automatic revisions ----

  /** A publication without an explicit revision is refused as stale exactly when its name has
      edge whitespace and the trimmed name is already published: the next revision is looked
      up under the name as given, the check is made under the name as stored. */
  lemma {:induction false} AutoRevisionStaleExactly(s: State, c: Command)
    requires Orderly(s.log) && !s.halted && c.Publish? && c.revision.None?
    requires ValidName(c.from) && 1 <= |Trim(c.name)| <= 200 && |c.text| <= 100_000
    ensures Decide(s, c).Err? <==> !Trimmed(c.name) && MaxRevision(s.log, Trim(c.name)) >= 1
    ensures Decide(s, c).Err? ==> Decide(s, c).error.StaleRevision?
  {
    StaleByName(s.log, c.name);
    DecidesPublication(s, c, MaxRevision(s.log, c.name) + 1);
  }

  lemma {:induction false} DecidesPublication(s: State, c: Command, number: int)
    requires !s.halted && c.Publish? && c.revision.None? && number == MaxRevision(s.log, c.name) + 1 && number >= 1
    requires ValidName(c.from) && 1 <= |Trim(c.name)| <= 200 && |c.text| <= 100_000
    ensures Decide(s, c).Err? <==> number <= MaxRevision(s.log, Trim(c.name))
    ensures Decide(s, c).Err? ==> Decide(s, c).error.StaleRevision?
  {
    assert ValidName("*");
    assert CheckedBody(Contract(c.name, number, c.text)) == Ok(Contract(Trim(c.name), number, c.text));
  }

  /** The revision counted under the name as given falls behind exactly when the name is not trimmed. */
  lemma {:induction false} StaleByName(log: seq<Event>, name: string)
    requires NamesTrimmed(log)
    ensures MaxRevision(log, name) + 1 <= MaxRevision(log, Trim(name))
            <==> !Trimmed(name) && MaxRevision(log, Trim(name)) >= 1
    ensures MaxRevision(log, name) >= 0
  {
    TrimIsTrimmed(name);
    MaxRevisionBounds(log, name);
    if MaxRevision(log, name) > 0 {
      var e :| e in log && Names(e, name);
      assert Trimmed(name);
    }
  }
}
