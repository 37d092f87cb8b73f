/** Claims in states where paths that do not read back as themselves are claimed already. */
module DriftingClaims {
  import opened Wrappers
  import opened Strings
  import opened Paths
  import opened Events
  import opened StateKeys
  import opened Ownership
  import opened Retention
  import opened Coordination
  import opened FailingRuns
  import opened UnstablePaths
  import opened LedgerRuns

  // ---- What a log holds, whatever the commands ----

  /** Somebody can ask for a path that is stored as this one. */
  ghost predicate Asked(stored: string) {
    exists path :: SizedPath(path) && NormalizeClaimPath(path) == Ok(stored)
  }

  predicate ReadsAs(path: string, t: string) {
    SizedPath(path) && NormalizeClaimPath(path).Ok? && NormalizeClaimPath(NormalizeClaimPath(path).value) == Ok(t)
  }

  /** Somebody can claim a path that is read back as this one. */
  ghost predicate Claimable(t: string) {
    exists path :: ReadsAs(path, t)
  }

  ghost predicate Written(e: Event) {
    e.body.Ownership? ==> Trimmed(e.from) && forall p | p in e.body.paths :: Asked(p)
  }

  ghost predicate AllWritten(log: seq<Event>) {
    forall e | e in log :: Written(e)
  }

  lemma {:induction false} CheckedIsAsked(body: Body)
    requires CheckedBody(body).Ok? && CheckedBody(body).value.Ownership?
    ensures forall p | p in CheckedBody(body).value.paths :: Asked(p)
  {
    var trimmed, stored := TrimAll(body.paths), CheckedBody(body).value.paths;
    NormalizeAllPointwise(trimmed);
    forall p | p in stored ensures Asked(p) {
      var i :| 0 <= i < |stored| && stored[i] == p;
      TrimTwice(body.paths[i]);
      assert body.paths[i] in body.paths;
      assert SizedPath(trimmed[i]) && NormalizeClaimPath(trimmed[i]) == Ok(p);
    }
  }

  lemma {:induction false} AppendIsWritten(s: State, id: string, now: int, from: string, to: string, body: Body)
    ensures AppendLocked(s, id, now, from, to, body).Ok? ==> Written(AppendLocked(s, id, now, from, to, body).value)
  {
    var r := AppendLocked(s, id, now, from, to, body);
    if r.Ok? && r.value.body.Ownership? {
      CheckedIsAsked(body);
      TrimIsTrimmed(from);
    }
  }

  lemma {:induction false} DecisionIsWritten(s: State, c: Command)
    requires !c.Compact? && !c.Activate? && !c.Deactivate? && Decide(s, c).Ok?
    ensures Written(Decide(s, c).value)
  {
    match c
    case Emit(id, now, from, to, body) => AppendIsWritten(s, id, now, from, to, body);
    case Publish(id, now, from, name, text, revision) =>
    case Claim(id, now, agent, paths, mode) => AppendIsWritten(s, id, now, agent, "*", Ownership(paths, mode));
    case Release(id, now, agent, paths) =>
      AppendIsWritten(s, id, now, agent, "*", Ownership(NormalizeAll(paths).value, Mode.Release));
  }

  lemma {:induction false} OutcomesAreWritten(s: State, commands: seq<Command>, compacting: bool)
    ensures AllWritten(Ledger(Run(s, commands, compacting).1))
    decreases |commands|
  {
    if commands != [] {
      var c := commands[0];
      OutcomesAreWritten(Next(s, c, compacting).0, commands[1..], compacting);
      if !c.Compact? && !c.Activate? && !c.Deactivate? && Decide(s, c).Ok? { DecisionIsWritten(s, c); }
    }
  }

  lemma {:induction false} RunIsWritten(commands: seq<Command>, compacting: bool)
    ensures AllWritten(Run(Start, commands, compacting).0.log)
  {
    var (s, outcomes) := Run(Start, commands, compacting);
    OutcomesAreWritten(Start, commands, compacting);
    if compacting {
      var n := RunLedger(commands);
      forall e | e in s.log ensures Written(e) {
        if e.body.Ownership? { assert StateKey(e).Some? && e in Ledger(outcomes); }
      }
    } else {
      UncompactedLog(Start, commands);
      assert [] + Ledger(outcomes) == Ledger(outcomes);
    }
  }

  lemma {:induction false} AppliedKeys(own: OwnershipMap, paths: seq<string>, e: Event)
    requires e.body.Ownership?
    ensures forall q | q in ApplyPaths(own, paths, e) :: q in own || q in paths
  {
    if paths != [] {
      AppliedKeys(own, paths[..|paths| - 1], e);
    }
  }

  /** Every path of the map is one that somebody can claim, and every owner a trimmed name. */
  lemma {:induction false} MapIsClaimable(log: seq<Event>)
    requires AllWritten(log) && FoldOwnership(log).Ok?
    ensures forall q | q in FoldOwnership(log).value :: Claimable(q)
    ensures OwnersTrimmed(FoldOwnership(log).value)
  {
    if log != [] {
      var init, last := log[..|log| - 1], log[|log| - 1];
      assert last in log && forall e | e in init :: e in log;
      MapIsClaimable(init);
      if last.body.Ownership? {
        ReadIsClaimable(last);
        AppliedKeys(FoldOwnership(init).value, NormalizeAll(last.body.paths).value, last);
        OwnersStayTrimmed(FoldOwnership(init).value, NormalizeAll(last.body.paths).value, last);
      }
    }
  }

  lemma {:induction false} ReadIsClaimable(e: Event)
    requires e.body.Ownership? && Written(e) && NormalizeAll(e.body.paths).Ok?
    ensures forall q | q in NormalizeAll(e.body.paths).value :: Claimable(q)
  {
    var read := NormalizeAll(e.body.paths).value;
    NormalizeAllPointwise(e.body.paths);
    forall q | q in read ensures Claimable(q) {
      var i :| 0 <= i < |read| && read[i] == q;
      assert Asked(e.body.paths[i]);
      var path :| SizedPath(path) && NormalizeClaimPath(path) == Ok(e.body.paths[i]);
      assert ReadsAs(path, q);
    }
  }

  lemma {:induction false} ClaimableIsCanonical(t: string)
    requires Claimable(t)
    ensures Canonical(t)
  {
    var path :| ReadsAs(path, t);
    NormalizedIsCanonical(NormalizeClaimPath(path).value);
  }

  // ---- The exact condition ----

  /** A claimable path that meets the path read back without meeting the stored one. */
  ghost predicate Reveals(stored: string, read: string, t: string) {
    Claimable(t) && t != read && PathsOverlap(t, read) && !PathsOverlap(stored, t)
  }

  ghost predicate Unrevealed(stored: string) {
    && NormalizeClaimPath(stored).Ok?
    && forall t :: !Reveals(stored, NormalizeClaimPath(stored).value, t)
  }

  ghost predicate Excludes(s: State) {
    FoldOwnership(s.log).Ok? && Exclusion(FoldOwnership(s.log).value)
  }

  /** In whatever state a run reaches whose map excludes, the map excludes after the claim too. */
  ghost predicate KeepsAlways(path: string) {
    forall commands, compacting, c | ClaimsOnly(c, path) && Excludes(Run(Start, commands, compacting).0) ::
      StillExcludes(Run(Start, commands, compacting).0, c)
  }

  lemma {:induction false} UnrevealedKeeps(s: State, c: Command, path: string, stored: string)
    requires AllWritten(s.log) && Excludes(s) && ClaimsOnly(c, path)
    requires NormalizeClaimPath(path) == Ok(stored) && Unrevealed(stored)
    ensures StillExcludes(s, c)
  {
    if Decide(s, c).Ok? {
      var own, e, read := FoldOwnership(s.log).value, Decide(s, c).value, NormalizeClaimPath(stored).value;
      MapIsClaimable(s.log);
      AcceptedClaim(s, c, path, stored);
      NormalizedIsCanonical(stored);
      FoldClaim(s.log, e, stored, read);
      CheckedUnderTrimmed(own, [stored], c.agent, c.mode);
      forall q | q in own ensures Canonical(q) { ClaimableIsCanonical(q); }
      forall q | q in own && q != read && PathsOverlap(q, read)
        ensures own[q].agent == e.from || (own[q].mode.Shared? && c.mode.Shared?)
      {
        assert !Reveals(stored, read, q);
        assert !Clash(own, stored, q, e.from, c.mode);
      }
      ReplaceKeeps(own, read, ClaimOf(e));
    }
  }

  /** One agent claims what reveals the path, another the path. */
  lemma {:induction false} RevealedBreaks(a: string, b: string, path: string, stored: string, read: string, t: string)
    requires PlainAgent(a) && PlainAgent(b) && a != b && SizedPath(path) && Reveals(stored, read, t)
    requires NormalizeClaimPath(path) == Ok(stored) && NormalizeClaimPath(stored) == Ok(read)
    ensures !KeepsAlways(path)
  {
    var raw :| ReadsAs(raw, t);
    ClaimableIsCanonical(t);
    var s, claim := ClaimedMap(Start, map[], a, a, raw, NormalizeClaimPath(raw).value, t);
    assert map[][t := claim] == map[t := claim];
    OneEntryExcludes(t, claim);
    MeetingBreaks(s, b, b, path, stored, read, t, claim);
    var first := OneClaim(a, a, raw, Exclusive);
    RunSnoc(Start, [], first, false);
    assert [] + [first] == [first];
    assert Excludes(Run(Start, [first], false).0);
    assert ClaimsOnly(OneClaim(b, b, path, Exclusive), path);
  }

  lemma {:induction false} OneEntryExcludes(t: string, claim: Claim)
    ensures Exclusion(map[t := claim])
  {
  }

  lemma {:induction false} UnreadableBreaksAlways(b: string, path: string, stored: string)
    requires PlainAgent(b) && SizedPath(path) && NormalizeClaimPath(path) == Ok(stored)
    requires NormalizeClaimPath(stored).Err?
    ensures !KeepsAlways(path)
  {
    UnreadableBreaks(b, b, path, stored);
    assert Run(Start, [], false).0 == Start && Excludes(Start);
    assert ClaimsOnly(OneClaim(b, b, path, Exclusive), path);
  }

  /** Claims of a path keep log and exclusion, in every state with exclusion that any commands with
      any names and any compactions reach, exactly when its stored form is read back, and no path
      that can be claimed meets it as read without meeting it as stored. */
  lemma {:induction false} KeepsExactly(path: string, stored: string)
    requires SizedPath(path) && NormalizeClaimPath(path) == Ok(stored)
    ensures KeepsAlways(path) <==> Unrevealed(stored)
  {
    var a, b := TwoAgents();
    if Unrevealed(stored) {
      forall commands, compacting, c | ClaimsOnly(c, path) && Excludes(Run(Start, commands, compacting).0)
        ensures StillExcludes(Run(Start, commands, compacting).0, c)
      {
        RunIsWritten(commands, compacting);
        UnrevealedKeeps(Run(Start, commands, compacting).0, c, path, stored);
      }
    } else if NormalizeClaimPath(stored).Err? {
      UnreadableBreaksAlways(b, path, stored);
    } else {
      var read := NormalizeClaimPath(stored).value;
      var t :| Reveals(stored, read, t);
      RevealedBreaks(a, b, path, stored, read, t);
    }
  }

  // ---- Which paths those are ----

  lemma {:induction false} StableIsUnrevealed(stored: string)
    requires Stable(stored)
    ensures Unrevealed(stored)
  {
  }

  /** A normal form other than the root that does not end in whitespace. */
  predicate EndsVisibly(t: string) {
    Canonical(t) && t != "." && t != "" && !IsSpace(t[|t| - 1])
  }

  lemma {:induction false} SpaceIsTrimmed(s: string, padded: string)
    requires padded == " " + s
    ensures NormalizeClaimPath(padded) == NormalizeClaimPath(s)
  {
    assert padded[1..] == s;
    assert Trim(padded) == Trim(s);
  }

  lemma {:induction false} BehindName(t: string, first: string, whole: string)
    requires EndsVisibly(t) && IsName(first) && whole == first + ['/'] + t
    ensures EndsVisibly(whole) && Segments(whole) == [first] + Segments(t)
  {
    SplitPlain(first, '/');
    SplitAppend(first, t, '/');
    assert whole[|whole| - 1] == t[|t| - 1] && |whole| > 1;
  }

  lemma {:induction false} DotIsDropped(t: string, path: string)
    requires EndsVisibly(t) && path == "./" + t
    ensures NormalizeClaimPath(path) == Ok(t)
  {
    CanonicalHasNoBackslash(t);
    DropsDot(path, t);
  }

  lemma {:induction false} SpacedDot(t: string, behind: string, stored: string)
    requires behind == "./" + t && stored == " ." + ['/'] + t
    ensures stored == " " + behind
  {
  }

  /** `./ ./` in front of a normal form: stored behind ` ./`, and read back without. */
  lemma {:induction false} TwiceBehindDot(t: string, stored: string, path: string)
    requires EndsVisibly(t) && stored == " ." + ['/'] + t && path == "./" + stored
    ensures NormalizeClaimPath(path) == Ok(stored) && NormalizeClaimPath(stored) == Ok(t)
    ensures EndsVisibly(stored)
  {
    var behind := "./" + t;
    BehindName(t, " .", stored);
    DotIsDropped(stored, path);
    DotIsDropped(t, behind);
    SpacedDot(t, behind, stored);
    SpaceIsTrimmed(behind, stored);
  }

  lemma {:induction false} BehindDotIsSized(t: string, path: string)
    requires EndsVisibly(t) && path == "./" + (" ." + ['/'] + t) && |t| <= 1019
    ensures SizedPath(path)
  {
    assert path[0] == '.' && path[|path| - 1] == t[|t| - 1];
    TrimmedStays(path);
  }

  lemma {:induction false} BehindDotIsClaimable(t: string)
    requires EndsVisibly(t) && |t| <= 1019
    ensures Claimable(t)
  {
    var stored := " ." + ['/'] + t;
    TwiceBehindDot(t, stored, "./" + stored);
    BehindDotIsSized(t, "./" + stored);
    assert ReadsAs("./" + stored, t);
  }

  /** A harmless path is met by one that does not stay put either. */
  lemma {:induction false} HarmlessIsRevealed(stored: string, read: string) returns (t: string)
    requires Canonical(stored) && NormalizeClaimPath(stored) == Ok(read) && read != stored && Harmless(stored, read)
    requires |read| + 2 <= 1019
    ensures Reveals(stored, read, t)
  {
    NormalizedIsCanonical(stored);
    if stored == "." { DotIsStable(); }
    ReadIsShorter(stored, read);
    var child := OtherName(Segments(stored), |Segments(read)|);
    t := read + "/" + child;
    BelowIsCanonical(read, child);
    ApartByName(stored, read, child);
    assert t[|t| - 1] == child[|child| - 1];
    BehindDotIsClaimable(t);
    assert read + "/" <= t;
  }

  lemma {:induction false} StableIsClaimable(t: string)
    requires Stable(t) && SizedPath(t)
    ensures Claimable(t)
  {
    assert ReadsAs(t, t);
  }

  lemma {:induction false} UnstableIsRevealed(path: string, stored: string, read: string) returns (t: string)
    requires SizedPath(path) && |Trim(path)| <= 1019 && NormalizeClaimPath(path) == Ok(stored)
    requires NormalizeClaimPath(stored) == Ok(read) && read != stored
    ensures Reveals(stored, read, t)
  {
    NormalizedIsCanonical(path);
    if Harmless(stored, read) {
      ReadIsTwoShorter(path, stored, read);
      t := HarmlessIsRevealed(stored, read);
    } else {
      t := Exposed(stored, read);
      ExposedIsSized(path, stored, read, t);
      StableIsClaimable(t);
    }
  }

  lemma {:induction false} ReadIsTwoShorter(path: string, stored: string, read: string)
    requires NormalizeClaimPath(path) == Ok(stored) && NormalizeClaimPath(stored) == Ok(read)
    requires read != stored && read != "."
    ensures |read| + 2 <= |Trim(path)|
  {
    NormalizedIsCanonical(path);
    if stored == "." { DotIsStable(); }
    ReadIsShorter(stored, read);
    StoredIsShorter(path, stored);
    TrimIsTrimmed(path);
    SlashesKeepEdges(Trim(path));
  }

  /** Claims of a path always keep log and exclusion if its stored form reads back as itself; and
      for paths that leave room for five more characters, only then. */
  lemma {:induction false} KeepsExactlyWhenStable(path: string, stored: string)
    requires SizedPath(path) && NormalizeClaimPath(path) == Ok(stored)
    ensures Stable(stored) ==> KeepsAlways(path)
    ensures |Trim(path)| <= 1019 ==> (KeepsAlways(path) <==> Stable(stored))
  {
    KeepsExactly(path, stored);
    if Stable(stored) { StableIsUnrevealed(stored); }
    if |Trim(path)| <= 1019 && Unrevealed(stored) && !Stable(stored) {
      var t := UnstableIsRevealed(path, stored, NormalizeClaimPath(stored).value);
    }
  }

  // ---- Two such claims ----

  lemma {:induction false} ApartByFirst(stored: string, t: string)
    requires Canonical(stored) && Canonical(t) && stored != "." && t != "."
    requires Segments(t) == [t] && Segments(stored)[0] != t
    ensures !PathsOverlap(stored, t)
  {
    OverlapIsSharedFile(stored, t);
  }

  lemma {:induction false} SpaceInFront(name: string, t: string)
    requires PlainName(name) && t == " " + name
    ensures EndsVisibly(t) && Segments(t) == [t] && t != " ."
  {
    assert forall c | c in t :: c == ' ' || c in name;
    assert t[1..] == name && t[|t| - 1] == name[|name| - 1] && t[0] == ' ';
    SplitPlain(t, '/');
  }

  /** ` a` and ` a/b`, each behind ` ./` when stored: the second does not meet the first. */
  lemma {:induction false} DriftingNames(name: string, child: string, t: string, read: string, stored: string)
    requires PlainName(name) && PlainName(child) && t == " " + name && read == t + "/" + child
    requires stored == " ." + ['/'] + read
    ensures EndsVisibly(t) && EndsVisibly(read) && PathsOverlap(t, read) && t != read && !PathsOverlap(stored, t)
  {
    SpaceInFront(name, t);
    BelowIsCanonical(t, child);
    assert read[|read| - 1] == child[|child| - 1];
    BehindName(read, " .", stored);
    ApartByFirst(stored, t);
    assert t + "/" <= read;
  }

  /** Two agents claim paths that are read back as these, the second below the first. */
  lemma {:induction false} TwoBehindDot(i: string, j: string, a: string, b: string, t: string, read: string,
                                        one: string, two: string)
    requires PlainAgent(a) && PlainAgent(b) && a != b
    requires EndsVisibly(t) && EndsVisibly(read) && |t| <= 1019 && |read| <= 1019
    requires one == " ." + ['/'] + t && two == " ." + ['/'] + read
    requires t != read && PathsOverlap(t, read) && !PathsOverlap(two, t)
    ensures var s := Run(Start, [OneClaim(i, a, "./" + one, Exclusive)], false).0;
            Excludes(s) && !StillExcludes(s, OneClaim(j, b, "./" + two, Exclusive))
  {
    TwiceBehindDot(t, one, "./" + one);
    TwiceBehindDot(read, two, "./" + two);
    BehindDotIsSized(t, "./" + one);
    BehindDotIsSized(read, "./" + two);
    var s, claim := ClaimedMap(Start, map[], i, a, "./" + one, one, t);
    assert map[][t := claim] == map[t := claim];
    OneEntryExcludes(t, claim);
    MeetingBreaks(s, j, b, "./" + two, two, read, t, claim);
    RunSnoc(Start, [], OneClaim(i, a, "./" + one, Exclusive), false);
    assert [] + [OneClaim(i, a, "./" + one, Exclusive)] == [OneClaim(i, a, "./" + one, Exclusive)];
  }

  lemma {:induction false} ReadsBehindSpace(stored: string, read: string)
    requires NormalizeClaimPath(stored) == Ok(read) && read != "" && read[0] == ' '
    ensures ReadsSafely(stored)
  {
  }

  lemma {:induction false} Spelled(name: string, t: string, stored: string, path: string)
    requires t == " " + name && stored == " ./ " + name && path == "./ ./ " + name
    ensures stored == " ." + ['/'] + t && path == "./" + stored
  {
  }

  lemma {:induction false} SafeBehindDot(t: string, stored: string)
    requires EndsVisibly(t) && stored == " ." + ['/'] + t && t[0] == ' '
    ensures ReadsSafely(stored)
  {
    TwiceBehindDot(t, stored, "./" + stored);
    ReadsBehindSpace(stored, t);
  }

  /** `./ ./ a` claimed by one agent, then `./ ./ a/b` by another, for any names: each stored form
      reads back behind whitespace, both claims are exclusive and accepted, and both cover ` a/b`. */
  lemma {:induction false} TwoDriftingClaims(i: string, j: string, a: string, b: string, name: string, child: string,
                                             first: string, second: string)
    requires PlainAgent(a) && PlainAgent(b) && a != b
    requires PlainName(name) && PlainName(child) && |name| + |child| < 1000
    requires first == "./ ./ " + name && second == "./ ./ " + (name + "/" + child)
    ensures ReadsSafely(" ./ " + name) && ReadsSafely(" ./ " + (name + "/" + child))
    ensures NormalizeClaimPath(first) == Ok(" ./ " + name)
            && NormalizeClaimPath(second) == Ok(" ./ " + (name + "/" + child))
    ensures var s := Run(Start, [OneClaim(i, a, first, Exclusive)], false).0;
            Excludes(s) && !StillExcludes(s, OneClaim(j, b, second, Exclusive))
  {
    var below, one, two := name + "/" + child, " ./ " + name, " ./ " + (name + "/" + child);
    var t, read := " " + name, " " + below;
    Spelled(name, t, one, first);
    Spelled(below, read, two, second);
    assert read == t + "/" + child;
    DriftingNames(name, child, t, read, two);
    TwiceBehindDot(t, one, first);
    TwiceBehindDot(read, two, second);
    SafeBehindDot(t, one);
    SafeBehindDot(read, two);
    TwoBehindDot(i, j, a, b, t, read, one, two);
  }
}
