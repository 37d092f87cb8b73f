/** File ownership: the fold of ownership events into a map from path to claim, the
    conflict check of a new claim, and exclusion over files. */
module Ownership {
  import opened Wrappers
  import opened Paths
  import opened Events

  datatype Claim = Claim(agent: string, mode: Mode, eventId: string, seqNo: nat)

  type OwnershipMap = map<string, Claim>

  function NormalizeAll(paths: seq<string>): Result<seq<string>, PathError> {
    if paths == [] then Ok([])
    else
      match NormalizeAll(paths[..|paths| - 1])
      case Err(error) => Err(error)
      case Ok(normalized) =>
        match NormalizeClaimPath(paths[|paths| - 1])
        case Err(error) => Err(error)
        case Ok(path) => Ok(normalized + [path])
  }

  /** One path of one ownership event. */
  function ApplyPath(own: OwnershipMap, path: string, e: Event): OwnershipMap
    requires e.body.Ownership?
  {
    if e.body.mode.Release? then
      if path in own && own[path].agent == e.from then own - {path} else own
    else own[path := Claim(e.from, e.body.mode, e.id, e.seqNo)]
  }

  function ApplyPaths(own: OwnershipMap, paths: seq<string>, e: Event): OwnershipMap
    requires e.body.Ownership?
  {
    if paths == [] then own
    else ApplyPath(ApplyPaths(own, paths[..|paths| - 1], e), paths[|paths| - 1], e)
  }

  /** The ownership map of a log; reading fails when a stored path cannot be normalised. */
  function FoldOwnership(log: seq<Event>): Result<OwnershipMap, PathError> {
    if log == [] then Ok(map[])
    else
      var last := log[|log| - 1];
      match FoldOwnership(log[..|log| - 1])
      case Err(error) => Err(error)
      case Ok(own) =>
        if !last.body.Ownership? then Ok(own)
        else
          match NormalizeAll(last.body.paths)
          case Err(error) => Err(error)
          case Ok(paths) => Ok(ApplyPaths(own, paths, last))
  }

  method NormalizePaths(paths: seq<string>) returns (r: Result<seq<string>, PathError>)
    ensures r == NormalizeAll(paths)
  {
    var normalized := [];
    for i := 0 to |paths|
      invariant NormalizeAll(paths[..i]) == Ok(normalized)
    {
      assert paths[..i + 1][..i] == paths[..i];
      match NormalizeClaimPath(paths[i])
      case Err(error) =>
        ErrorPersists(paths, i + 1, error);
        return Err(error);
      case Ok(path) => normalized := normalized + [path];
    }
    assert paths[..|paths|] == paths;
    return Ok(normalized);
  }

  lemma {:induction false} ErrorPersists(paths: seq<string>, n: nat, error: PathError)
    requires n <= |paths| && NormalizeAll(paths[..n]) == Err(error)
    ensures NormalizeAll(paths) == Err(error)
    decreases |paths| - n
  {
    if n == |paths| {
      assert paths[..n] == paths;
    } else {
      assert paths[..n + 1][..n] == paths[..n];
      ErrorPersists(paths, n + 1, error);
    }
  }

  method OwnershipFromEvents(events: seq<Event>) returns (r: Result<OwnershipMap, PathError>)
    ensures r == FoldOwnership(events)
  {
    var own: OwnershipMap := map[];
    for i := 0 to |events|
      invariant FoldOwnership(events[..i]) == Ok(own)
    {
      var event := events[i];
      assert events[..i + 1][..i] == events[..i];
      if !event.body.Ownership? { continue; }
      var normalized := NormalizePaths(event.body.paths);
      if normalized.Err? {
        ReadErrorPersists(events, i + 1, normalized.error);
        return Err(normalized.error);
      }
      var paths := normalized.value;
      var before := own;
      for j := 0 to |paths|
        invariant own == ApplyPaths(before, paths[..j], event)
      {
        assert paths[..j + 1][..j] == paths[..j];
        var path := paths[j];
        if event.body.mode.Release? {
          if path in own && own[path].agent == event.from { own := own - {path}; }
          continue;
        }
        own := own[path := Claim(event.from, event.body.mode, event.id, event.seqNo)];
      }
      assert paths[..|paths|] == paths;
    }
    assert events[..|events|] == events;
    return Ok(own);
  }

  lemma {:induction false} ReadErrorPersists(events: seq<Event>, n: nat, error: PathError)
    requires n <= |events| && FoldOwnership(events[..n]) == Err(error)
    ensures FoldOwnership(events) == Err(error)
    decreases |events| - n
  {
    if n == |events| {
      assert events[..n] == events;
    } else {
      assert events[..n + 1][..n] == events[..n];
      ReadErrorPersists(events, n + 1, error);
    }
  }

  // ---- What the fold means, path by path ----

  predicate Touches(e: Event, path: string) {
    e.body.Ownership? && path in e.body.paths
  }

  predicate Claims(e: Event, path: string) {
    Touches(e, path) && !e.body.mode.Release?
  }

  function ClaimOf(e: Event): Claim
    requires e.body.Ownership?
  {
    Claim(e.from, e.body.mode, e.id, e.seqNo)
  }

  /** The owner of one path: the latest claim of it that its own agent has not released. */
  function OwnerAt(log: seq<Event>, path: string): Option<Claim> {
    if log == [] then None
    else
      var before, last := OwnerAt(log[..|log| - 1], path), log[|log| - 1];
      if !Touches(last, path) then before
      else if Claims(last, path) then Some(ClaimOf(last))
      else if before.Some? && before.value.agent == last.from then None
      else before
  }

  function Lookup(own: OwnershipMap, path: string): Option<Claim> {
    if path in own then Some(own[path]) else None
  }

  /** Every stored path survives being normalised again. */
  ghost predicate Readable(log: seq<Event>) {
    forall e, p | e in log && Touches(e, p) :: Stable(p)
  }

  lemma {:induction false} NormalizeStable(paths: seq<string>)
    requires forall p | p in paths :: Stable(p)
    ensures NormalizeAll(paths) == Ok(paths)
  {
    if paths != [] {
      var init, last := paths[..|paths| - 1], paths[|paths| - 1];
      assert paths == init + [last];
      NormalizeStable(init);
      assert Stable(last);
    }
  }

  lemma {:induction false} ApplyPathsMeaning(own: OwnershipMap, paths: seq<string>, e: Event, p: string)
    requires e.body.Ownership?
    ensures Lookup(ApplyPaths(own, paths, e), p) ==
            if p !in paths then Lookup(own, p)
            else if !e.body.mode.Release? then Some(ClaimOf(e))
            else if p in own && own[p].agent == e.from then None
            else Lookup(own, p)
  {
    if paths != [] {
      ApplyPathsMeaning(own, paths[..|paths| - 1], e, p);
      assert paths == paths[..|paths| - 1] + [paths[|paths| - 1]];
    }
  }

  /** Reading a log whose stored paths are stable succeeds, and gives each path its owner. */
  lemma {:induction false} FoldMeaning(log: seq<Event>)
    requires Readable(log)
    ensures FoldOwnership(log).Ok?
    ensures forall p :: Lookup(FoldOwnership(log).value, p) == OwnerAt(log, p)
  {
    if log != [] {
      var init, last := log[..|log| - 1], log[|log| - 1];
      assert forall e | e in init :: e in log;
      FoldMeaning(init);
      if last.body.Ownership? {
        forall p | p in last.body.paths ensures Stable(p) {
          assert last in log && Touches(last, p);
        }
        NormalizeStable(last.body.paths);
        forall p ensures Lookup(FoldOwnership(log).value, p) == OwnerAt(log, p) {
          ApplyPathsMeaning(FoldOwnership(init).value, last.body.paths, last, p);
        }
      }
    }
  }

  /** The event claims the path and makes this entry for it. */
  ghost predicate Takes(e: Event, path: string, claim: Claim) {
    match e.body
    case Ownership(paths, mode) =>
      path in paths && (mode.Exclusive? || mode.Shared?) && claim == Claim(e.from, mode, e.id, e.seqNo)
    case _ => false
  }

  /** The event ends the agent's entry: anybody's claim of the path, or the agent's own release of it. */
  ghost predicate Ends(e: Event, path: string, agent: string) {
    match e.body
    case Ownership(paths, mode) => path in paths && (mode.Release? ==> e.from == agent)
    case _ => false
  }

  /** The entry was made and nothing has ended it since. */
  ghost predicate StandsAt(log: seq<Event>, j: nat, path: string, claim: Claim) {
    j < |log| && Takes(log[j], path, claim) && forall k | j < k < |log| :: !Ends(log[k], path, claim.agent)
  }

  lemma {:induction false} StandsAfter(init: seq<Event>, last: Event, j: nat, path: string, claim: Claim)
    ensures StandsAt(init + [last], j, path, claim)
            <==> if j == |init| then Takes(last, path, claim)
                 else StandsAt(init, j, path, claim) && !Ends(last, path, claim.agent)
  {
    var log := init + [last];
    assert log[|init|] == last && forall k | 0 <= k < |init| :: log[k] == init[k];
  }

  lemma {:induction false} OwnerStands(log: seq<Event>, path: string, claim: Claim)
    ensures OwnerAt(log, path) == Some(claim) <==> exists j: nat :: StandsAt(log, j, path, claim)
  {
    if log != [] {
      var init, last := log[..|log| - 1], log[|log| - 1];
      assert log == init + [last];
      OwnerStands(init, path, claim);
      forall j: nat {
        StandsAfter(init, last, j, path, claim);
      }
      if Takes(last, path, claim) { assert StandsAt(log, |init|, path, claim); }
      if j: nat :| StandsAt(init, j, path, claim) && !Ends(last, path, claim.agent) {
        assert StandsAt(log, j, path, claim);
      }
    }
  }

  /** The map read from a log has exactly the entries that were made and that nobody has taken over and
      their own agents have not released. */
  lemma {:induction false} OwnedExactly(log: seq<Event>, path: string, claim: Claim)
    requires Readable(log)
    ensures FoldOwnership(log).Ok?
    ensures Lookup(FoldOwnership(log).value, path) == Some(claim) <==> exists j: nat :: StandsAt(log, j, path, claim)
  {
    FoldMeaning(log);
    OwnerStands(log, path, claim);
  }

  /** Two logs with the same owner at every path have the same map. */
  lemma {:induction false} SameOwnersSameMap(a: seq<Event>, b: seq<Event>)
    requires Readable(a) && Readable(b)
    requires forall p :: OwnerAt(a, p) == OwnerAt(b, p)
    ensures FoldOwnership(a) == FoldOwnership(b)
  {
    FoldMeaning(a);
    FoldMeaning(b);
    var x, y := FoldOwnership(a).value, FoldOwnership(b).value;
    forall p ensures (p in x) == (p in y) && (p in x ==> x[p] == y[p]) {
      assert Lookup(x, p) == OwnerAt(a, p) == OwnerAt(b, p) == Lookup(y, p);
    }
    assert x == y;
  }

  // ---- The conflict check ----

  datatype Conflict = Conflict(path: string, owner: string, ownerMode: Mode)

  predicate Clash(own: OwnershipMap, requested: string, owned: string, agent: string, mode: Mode)
    requires owned in own
  {
    && PathsOverlap(requested, owned)
    && own[owned].agent != agent
    && !(own[owned].mode.Shared? && mode.Shared?)
  }

  ghost predicate Conflicting(own: OwnershipMap, requested: seq<string>, agent: string, mode: Mode) {
    exists p, q :: p in requested && q in own && Clash(own, p, q, agent, mode)
  }

  /** The loop of claimOwnership: a conflict is reported for every clash, and only for one. */
  method FindConflicts(own: OwnershipMap, requested: seq<string>, agent: string, mode: Mode)
    returns (conflicts: set<Conflict>)
    ensures conflicts == {} <==> !Conflicting(own, requested, agent, mode)
    ensures forall c :: c in conflicts <==>
              c.path in requested &&
              exists q :: q in own && Clash(own, c.path, q, agent, mode)
                          && c == Conflict(c.path, own[q].agent, own[q].mode)
  {
    conflicts := {};
    for i := 0 to |requested|
      invariant forall c :: c in conflicts <==>
                  c.path in requested[..i] &&
                  exists q :: q in own && Clash(own, c.path, q, agent, mode)
                              && c == Conflict(c.path, own[q].agent, own[q].mode)
    {
      var path := requested[i];
      ghost var before := conflicts;
      var todo := own.Keys;
      while todo != {}
        invariant todo <= own.Keys
        invariant forall c :: c in conflicts <==>
                    c in before ||
                    (c.path == path &&
                     exists q :: q in own.Keys - todo && Clash(own, path, q, agent, mode)
                                 && c == Conflict(path, own[q].agent, own[q].mode))
        decreases todo
      {
        var owned :| owned in todo;
        if Clash(own, path, owned, agent, mode) {
          conflicts := conflicts + {Conflict(path, own[owned].agent, own[owned].mode)};
        }
        todo := todo - {owned};
      }
      assert requested[..i + 1] == requested[..i] + [path];
    }
    assert requested[..|requested|] == requested;
    if Conflicting(own, requested, agent, mode) {
      var p, q :| p in requested && q in own && Clash(own, p, q, agent, mode);
      assert Conflict(p, own[q].agent, own[q].mode) in conflicts;
    }
  }

  // ---- Exclusion over files ----

  /** Whenever claims of two agents cover one file, through whatever directories, both are shared. */
  ghost predicate Exclusion(own: OwnershipMap) {
    forall p, q, file | p in own && q in own && Covers(p, file) && Covers(q, file) ::
      own[p].agent != own[q].agent ==> own[p].mode.Shared? && own[q].mode.Shared?
  }

  ghost predicate CanonicalKeys(own: OwnershipMap) {
    forall p | p in own :: Canonical(p)
  }

  /** An ownership event that passed its check keeps exclusion: a claim because the check
      finds every overlap, a release because it only removes. */
  lemma {:induction false} EventKeepsExclusion(own: OwnershipMap, paths: seq<string>, e: Event)
    requires e.body.Ownership? && e.body.paths == paths && CanonicalKeys(own) && Exclusion(own)
    requires forall p | p in paths :: Canonical(p)
    requires !e.body.mode.Release? ==> !Conflicting(own, paths, e.from, e.body.mode)
    ensures CanonicalKeys(ApplyPaths(own, paths, e)) && Exclusion(ApplyPaths(own, paths, e))
  {
    var after := ApplyPaths(own, paths, e);
    forall p | p in after
      ensures p !in paths || e.body.mode.Release? ==> p in own && after[p] == own[p]
      ensures p in paths && !e.body.mode.Release? ==> after[p] == ClaimOf(e)
    {
      ApplyPathsMeaning(own, paths, e, p);
      assert Lookup(after, p).Some?;
    }
    forall p, q, file | p in after && q in after && Covers(p, file) && Covers(q, file)
                        && after[p].agent != after[q].agent
      ensures after[p].mode.Shared? && after[q].mode.Shared?
    {
      OverlapIsSharedFile(p, q);
      OverlapIsSharedFile(q, p);
      if !e.body.mode.Release? {
        if p in paths {
          assert Clash(own, p, q, e.from, e.body.mode) || (own[q].mode.Shared? && e.body.mode.Shared?);
        } else if q in paths {
          assert Clash(own, q, p, e.from, e.body.mode) || (own[p].mode.Shared? && e.body.mode.Shared?);
        }
      }
    }
  }

  /** What the check is worth: it lets a claim through exactly when the map with the claim
      still excludes, provided the claim does not replace another agent's entry. */
  lemma {:induction false} CheckIsExact(own: OwnershipMap, paths: seq<string>, e: Event)
    requires e.body.Ownership? && e.body.paths == paths && !e.body.mode.Release?
    requires CanonicalKeys(own) && Exclusion(own)
    requires forall p | p in paths :: Canonical(p)
    requires forall p | p in paths && p in own :: own[p].agent == e.from
    ensures !Conflicting(own, paths, e.from, e.body.mode) <==> Exclusion(ApplyPaths(own, paths, e))
  {
    var after := ApplyPaths(own, paths, e);
    if !Conflicting(own, paths, e.from, e.body.mode) {
      EventKeepsExclusion(own, paths, e);
    } else {
      var p, q :| p in paths && q in own && Clash(own, p, q, e.from, e.body.mode);
      ApplyPathsMeaning(own, paths, e, p);
      ApplyPathsMeaning(own, paths, e, q);
      assert Lookup(after, p) == Some(ClaimOf(e)) && Lookup(after, q) == Some(own[q]);
      OverlapIsSharedFile(p, q);
      var file :| Covers(p, file) && Covers(q, file);
      assert !Exclusion(after);
    }
  }

  // ---- Logs without takeovers ----

  /** An ownership event that touches no path held by another agent. */
  ghost predicate NoTakeover(log: seq<Event>, e: Event) {
    forall p | Touches(e, p) && OwnerAt(log, p).Some? :: OwnerAt(log, p).value.agent == e.from
  }

  ghost predicate TakeoverFree(log: seq<Event>) {
    log == [] || (TakeoverFree(log[..|log| - 1]) && NoTakeover(log[..|log| - 1], log[|log| - 1]))
  }

  /** b is the last event satisfying the test, in an ordered log. */
  ghost predicate LastTouch(log: seq<Event>, b: Event, path: string) {
    b in log && Touches(b, path) && forall e | e in log && Touches(e, path) :: e.seqNo <= b.seqNo
  }

  ghost predicate LastTouchBy(log: seq<Event>, b: Event, path: string) {
    b in log && Touches(b, path) &&
    forall e | e in log && Touches(e, path) && e.from == b.from :: e.seqNo <= b.seqNo
  }

  /** If the last event about a path is a claim, that claim owns the path. */
  lemma {:induction false} LastClaimOwns(log: seq<Event>, b: Event, path: string)
    requires Increasing(log) && LastTouch(log, b, path) && Claims(b, path)
    ensures OwnerAt(log, path) == Some(ClaimOf(b))
  {
    var init, last := log[..|log| - 1], log[|log| - 1];
    assert log == init + [last];
    assert last in log;
    if Touches(last, path) {
      SameSeqSameEvent(log, last, b) by {
        assert b.seqNo <= last.seqNo by { var i :| 0 <= i < |log| && log[i] == b; }
      }
    } else {
      assert b in init;
      LastClaimOwns(init, b, path);
    }
  }

  /** Whoever owns a path has a claim as the last thing it said about the path. */
  lemma {:induction false} OwnerSpokeLast(log: seq<Event>, path: string) returns (b: Event)
    requires Increasing(log) && OwnerAt(log, path).Some?
    ensures LastTouchBy(log, b, path) && Claims(b, path) && OwnerAt(log, path) == Some(ClaimOf(b))
  {
    var init, last := log[..|log| - 1], log[|log| - 1];
    assert log == init + [last];
    if Claims(last, path) {
      b := last;
      forall e | e in log ensures e.seqNo <= b.seqNo { var i :| 0 <= i < |log| && log[i] == e; }
    } else {
      b := OwnerSpokeLast(init, path);
      assert Touches(last, path) ==> last.from != b.from;
    }
  }

  /** Without takeovers the converse holds too: an agent whose last word on a path is a claim owns it. */
  lemma {:induction false} LastWordOwns(log: seq<Event>, b: Event, path: string)
    requires Increasing(log) && TakeoverFree(log) && LastTouchBy(log, b, path) && Claims(b, path)
    ensures OwnerAt(log, path) == Some(ClaimOf(b))
  {
    var init, last := log[..|log| - 1], log[|log| - 1];
    assert log == init + [last];
    if last != b {
      LastWordEarlier(init, last, b, path);
      LastWordOwns(init, b, path);
    }
  }

  lemma {:induction false} LastWordEarlier(init: seq<Event>, last: Event, b: Event, path: string)
    requires Increasing(init + [last]) && LastTouchBy(init + [last], b, path) && last != b
    ensures Increasing(init) && LastTouchBy(init, b, path) && !(Touches(last, path) && last.from == b.from)
  {
    var log := init + [last];
    assert log[..|init|] == init && log[|init|] == last && last in log;
    assert forall i | 0 <= i < |init| :: log[i] == init[i];
    assert forall e | e in init :: e in log;
    var i :| 0 <= i < |log| && log[i] == b;
  }

  /** Without takeovers an owner's claim is the last event about the path by anyone. */
  lemma {:induction false} OwnerTouchedLast(log: seq<Event>, path: string) returns (b: Event)
    requires Increasing(log) && TakeoverFree(log) && OwnerAt(log, path).Some?
    ensures LastTouch(log, b, path) && Claims(b, path) && OwnerAt(log, path) == Some(ClaimOf(b))
  {
    var init, last := log[..|log| - 1], log[|log| - 1];
    assert log == init + [last];
    if Touches(last, path) {
      b := last;
      forall e | e in log ensures e.seqNo <= b.seqNo { var i :| 0 <= i < |log| && log[i] == e; }
    } else {
      b := OwnerTouchedLast(init, path);
    }
  }
}
