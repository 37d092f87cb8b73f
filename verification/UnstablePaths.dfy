/** Claims of paths that do not read back as they were stored: what they do to the ownership map,
    and which are harmless as long as all others stay put. */
module UnstablePaths {
  import opened Wrappers
  import opened Strings
  import opened Paths
  import opened Events
  import opened Ownership
  import opened Coordination
  import opened FailingRuns

  // ---- Lengths ----

  lemma {:induction false} WalkDropsOrKeeps(segments: seq<string>)
    ensures Walk(segments, true) == segments || Weight(Walk(segments, true)) < Weight(segments)
  {
    if segments != [] {
      var init, last := segments[..|segments| - 1], segments[|segments| - 1];
      assert segments == init + [last];
      WalkDropsOrKeeps(init);
      WalkWeight(init);
      var before := Walk(init, true);
      var after := Push(before, last, true);
      if after == before + [last] {
        assert after[..|after| - 1] == before;
      }
    }
  }

  /** A stored path is at most as long as the path that was asked for, and shorter unless it is that path. */
  lemma {:induction false} StoredIsShorter(path: string, stored: string)
    requires NormalizeClaimPath(path) == Ok(stored) && stored != "."
    ensures |stored| <= |Trim(path)|
    ensures |stored| < |Trim(path)| || stored == ToSlashes(Trim(path))
  {
    var portable := ToSlashes(Trim(path));
    var parts := Split(portable, '/');
    NormalizeMeaning(path);
    JoinWeight(Walk(parts, true));
    JoinWeight(parts);
    JoinSplit(portable, '/');
    WalkDropsOrKeeps(parts);
  }

  lemma {:induction false} SlashesKeepEdges(s: string)
    ensures Trimmed(s) ==> Trimmed(ToSlashes(s))
  {
  }

  /** What does not read back as itself has whitespace at an edge, and reads as something shorter. */
  lemma {:induction false} ReadIsShorter(stored: string, read: string)
    requires Canonical(stored) && NormalizeClaimPath(stored) == Ok(read) && read != stored && read != "."
    ensures !Trimmed(stored) && |read| < |stored|
  {
    CanonicalHasNoBackslash(stored);
    TrimIsTrimmed(stored);
    StoredIsShorter(stored, read);
    if Trimmed(stored) {
      assert ToSlashes(stored) == stored;
      CanonicalIsStable(stored);
    }
  }

  // ---- Which stored paths are harmless ----

  predicate BareDrive(s: string) {
    |s| == 2 && ('A' <= s[0] <= 'Z' || 'a' <= s[0] <= 'z') && s[1] == ':'
  }

  /** The path reads back as itself, or as one that no other path can meet: behind leading
      whitespace or a drive there are no paths that read back as themselves. */
  predicate Harmless(stored: string, read: string) {
    read == stored || (read != "" && IsSpace(read[0])) || BareDrive(read)
  }

  /** A path that the reading meets and the check under the stored path does not. */
  ghost predicate Exposes(stored: string, read: string, t: string) {
    Stable(t) && t != read && PathsOverlap(t, read) && !PathsOverlap(stored, t)
  }

  lemma {:induction false} StableFacts(t: string)
    requires Stable(t)
    ensures Canonical(t) && t != "" && Trimmed(t) && !HasDriveLetter(t)
  {
    NormalizedIsCanonical(t);
    IdempotentExactly(t);
  }

  lemma {:induction false} HarmlessMeetsNothing(stored: string, read: string, t: string)
    requires Canonical(stored) && NormalizeClaimPath(stored) == Ok(read) && Harmless(stored, read)
    ensures !Exposes(stored, read, t)
  {
    if Stable(t) {
      StableFacts(t);
      if t + "/" <= read { assert t[0] == (t + "/")[0] == read[0] && (t + "/")[|t|] == read[|t|]; }
      if read + "/" <= t { assert read != "" ==> t[0] == (read + "/")[0]; assert t[|read|] == (read + "/")[|read|]; }
    }
  }

  /** A one-letter name that is not at this place. */
  lemma {:induction false} OtherName(segments: seq<string>, k: nat) returns (name: string)
    ensures PlainName(name) && |name| == 1 && (k < |segments| ==> segments[k] != name)
  {
    var x, y := "x", "y";
    assert x[0] != y[0];
    name := if k < |segments| && segments[k] == x then y else x;
  }

  lemma {:induction false} BelowIsCanonical(read: string, child: string)
    requires Canonical(read) && read != "." && PlainName(child)
    ensures var t := read + "/" + child; Canonical(t) && t != "." && Segments(t) == Segments(read) + [child]
  {
    assert read + "/" + child == read + ['/'] + child;
    SplitAppend(read, child, '/');
    SplitPlain(child, '/');
  }

  lemma {:induction false} BelowIsStable(read: string, child: string)
    requires Canonical(read) && read != "." && read != "" && !IsSpace(read[0])
    requires !BareDrive(read) && !HasDriveLetter(read)
    requires PlainName(child)
    ensures Stable(read + "/" + child)
  {
    var t := read + "/" + child;
    BelowIsCanonical(read, child);
    assert t[0] == read[0] && t[|t| - 1] == child[|child| - 1] && t[|read|] == '/';
    assert forall k | 0 <= k < |read| :: t[k] == read[k];
    CanonicalIsStable(t);
  }

  lemma {:induction false} NotAbove(stored: string, read: string)
    requires Canonical(stored) && Canonical(read) && stored != "." && read != "." && |read| < |stored|
    ensures !(Segments(stored) <= Segments(read))
  {
    SubtreeExactly(read, stored);
  }

  lemma {:induction false} ApartByName(stored: string, read: string, child: string)
    requires Canonical(stored) && Canonical(read) && stored != "." && read != "." && |read| < |stored|
    requires |Segments(read)| < |Segments(stored)| ==> Segments(stored)[|Segments(read)|] != child
    requires var t := read + "/" + child; Canonical(t) && Segments(t) == Segments(read) + [child]
    ensures !PathsOverlap(stored, read + "/" + child)
  {
    var t := read + "/" + child;
    NotAbove(stored, read);
    OverlapIsSharedFile(stored, t);
    var s, r := Segments(stored), Segments(read);
    assert |s| <= |r| ==> (r + [child])[..|s|] == r[..|s|];
    assert (r + [child])[|r|] == child;
  }

  lemma {:induction false} TrimEndReaches(s: string, k: nat)
    requires k < |s| && !IsSpace(s[k])
    ensures |TrimEnd(s)| > k
  {
    if IsSpace(s[|s| - 1]) { TrimEndReaches(s[..|s| - 1], k); }
  }

  lemma {:induction false} DriveStaysDrive(s: string)
    requires HasDriveLetter(s)
    ensures NormalizeClaimPath(s).Err?
  {
    TrimEndReaches(s, 2);
    TrimEndKeepsFirst(s);
    assert Trim(s) == TrimEnd(s);
    assert HasDriveLetter(ToSlashes(Trim(s)));
  }

  lemma {:induction false} DriveIsStable(drive: string)
    requires BareDrive(drive)
    ensures Canonical(drive) && Stable(drive) && Segments(drive) == [drive]
  {
    SplitPlain(drive, '/');
    CanonicalIsStable(drive);
  }

  /** No path with a drive in front is ever read back. */
  lemma {:induction false} NotBelowDrive(stored: string, drive: string)
    requires Canonical(stored) && NormalizeClaimPath(stored).Ok? && stored != "." && BareDrive(drive) && stored != drive
    ensures Split(stored, '/')[0] != drive
  {
    FirstPiece(stored, drive, '/');
    if drive + ['/'] <= stored {
      assert stored[0] == drive[0] && stored[1] == drive[1] && stored[2] == (drive + ['/'])[2];
      DriveStaysDrive(stored);
    }
  }

  lemma {:induction false} DriveApart(stored: string, drive: string)
    requires Canonical(stored) && NormalizeClaimPath(stored).Ok? && stored != "." && BareDrive(drive) && stored != drive
    ensures !PathsOverlap(stored, drive)
  {
    DriveIsStable(drive);
    NotBelowDrive(stored, drive);
    OverlapIsSharedFile(stored, drive);
  }

  /** A drive that comes to light lies below its own name. */
  lemma {:induction false} DriveExposed(stored: string, read: string)
    requires Canonical(stored) && NormalizeClaimPath(stored) == Ok(read) && read != stored && HasDriveLetter(read)
    ensures Exposes(stored, read, read[..2])
  {
    var t := read[..2];
    DriveIsStable(t);
    AboveDrive(read, t);
    if stored == "." { DotIsStable(); }
    DriveApart(stored, t);
  }

  lemma {:induction false} AboveDrive(read: string, drive: string)
    requires HasDriveLetter(read) && drive == read[..2]
    ensures drive + "/" <= read && drive != read
  {
    assert drive + "/" == read[..3];
  }

  lemma {:induction false} RootExposed(stored: string) returns (t: string)
    requires Canonical(stored) && stored != "."
    ensures Exposes(stored, ".", t) && |t| == 1
  {
    var name := OtherName(Segments(stored), 0);
    PlainNameIsStable(name);
    OverlapIsSharedFile(stored, name);
    t := name;
  }

  lemma {:induction false} BelowExposed(stored: string, read: string) returns (t: string)
    requires Canonical(stored) && NormalizeClaimPath(stored) == Ok(read) && read != stored && read != "."
    requires !IsSpace(read[0]) && !BareDrive(read) && !HasDriveLetter(read)
    ensures Exposes(stored, read, t) && |t| == |read| + 2
  {
    NormalizedIsCanonical(stored);
    if stored == "." { DotIsStable(); }
    ReadIsShorter(stored, read);
    var child := OtherName(Segments(stored), |Segments(read)|);
    BelowIsStable(read, child);
    BelowIsCanonical(read, child);
    ApartByName(stored, read, child);
    t := read + "/" + child;
  }

  /** A stored path that is not harmless can be met by a path that the check does not see. */
  lemma {:induction false} Exposed(stored: string, read: string) returns (t: string)
    requires Canonical(stored) && NormalizeClaimPath(stored) == Ok(read) && !Harmless(stored, read)
    ensures Exposes(stored, read, t) && (|t| <= |read| + 2 || |t| == 1)
  {
    NormalizedIsCanonical(stored);
    if read == "." {
      t := RootExposed(stored);
    } else if HasDriveLetter(read) {
      DriveExposed(stored, read);
      t := read[..2];
    } else {
      t := BelowExposed(stored, read);
    }
  }

  lemma {:induction false} HarmlessExactly(stored: string, read: string)
    requires Canonical(stored) && NormalizeClaimPath(stored) == Ok(read)
    ensures Harmless(stored, read) <==> forall t :: !Exposes(stored, read, t)
  {
    if Harmless(stored, read) {
      forall t ensures !Exposes(stored, read, t) { HarmlessMeetsNothing(stored, read, t); }
    } else {
      var t := Exposed(stored, read);
    }
  }

  // ---- Runs ----

  lemma {:induction false} OwnKeysAreStable(log: seq<Event>, q: string)
    requires Orderly(log) && q in FoldOwnership(log).value
    ensures Stable(q)
  {
    FoldMeaning(log);
    assert Lookup(FoldOwnership(log).value, q) == OwnerAt(log, q);
    var b := OwnerSpokeLast(log, q);
  }

  /** A claim of one path, by whomever and in whichever mode. */
  predicate ClaimsOnly(c: Command, path: string) {
    c.Claim? && c.paths == [path] && !c.mode.Release?
  }

  lemma {:induction false} AcceptedClaim(s: State, c: Command, path: string, stored: string)
    requires FoldOwnership(s.log).Ok? && ClaimsOnly(c, path) && NormalizeClaimPath(path) == Ok(stored)
    requires Decide(s, c).Ok?
    ensures var e := Decide(s, c).value;
            e.body == Ownership([stored], c.mode) && e.from == Trim(c.agent)
            && !Conflicting(FoldOwnership(s.log).value, [stored], c.agent, c.mode)
  {
    OwnershipBody([path], c.mode);
    SingleNormalized(path, stored);
  }

  lemma {:induction false} FoldClaim(log: seq<Event>, e: Event, stored: string, read: string)
    requires FoldOwnership(log).Ok? && e.body.Ownership? && e.body.paths == [stored] && !e.body.mode.Release?
    requires NormalizeClaimPath(stored) == Ok(read)
    ensures FoldOwnership(log + [e]) == Ok(FoldOwnership(log).value[read := ClaimOf(e)])
  {
    SingleNormalized(stored, read);
    assert (log + [e])[..|log|] == log && [read][..0] == [];
    assert ApplyPaths(FoldOwnership(log).value, [read], e) == ApplyPath(FoldOwnership(log).value, read, e);
  }

  /** Replacing one entry keeps exclusion if the new claim gets on with all others that it meets. */
  lemma {:induction false} ReplaceKeeps(own: OwnershipMap, read: string, claim: Claim)
    requires CanonicalKeys(own) && Exclusion(own) && Canonical(read)
    requires forall q | q in own && q != read && PathsOverlap(q, read) ::
               own[q].agent == claim.agent || (own[q].mode.Shared? && claim.mode.Shared?)
    ensures Exclusion(own[read := claim])
  {
    var after := own[read := claim];
    forall p, q, file | p in after && q in after && Covers(p, file) && Covers(q, file)
                        && after[p].agent != after[q].agent
      ensures after[p].mode.Shared? && after[q].mode.Shared?
    {
      OverlapIsSharedFile(p, q);
      OverlapIsSharedFile(q, p);
    }
  }

  ghost predicate StillExcludes(s: State, c: Command) {
    var own := FoldOwnership(Next(s, c, false).0.log);
    own.Ok? && Exclusion(own.value)
  }

  lemma {:induction false} HarmlessKeeps(s: State, c: Command, path: string, stored: string, read: string)
    requires Orderly(s.log) && ClaimsOnly(c, path) && NormalizeClaimPath(path) == Ok(stored)
    requires NormalizeClaimPath(stored) == Ok(read) && Harmless(stored, read)
    ensures StillExcludes(s, c)
  {
    if Decide(s, c).Ok? {
      var own, e := FoldOwnership(s.log).value, Decide(s, c).value;
      AcceptedClaim(s, c, path, stored);
      NormalizedIsCanonical(path);
      NormalizedIsCanonical(stored);
      FoldClaim(s.log, e, stored, read);
      CheckedUnderTrimmed(own, [stored], c.agent, c.mode);
      forall q | q in own && q != read && PathsOverlap(q, read)
        ensures own[q].agent == e.from || (own[q].mode.Shared? && c.mode.Shared?)
      {
        OwnKeysAreStable(s.log, q);
        HarmlessMeetsNothing(stored, read, q);
        assert !Clash(own, stored, q, e.from, c.mode);
      }
      ReplaceKeeps(own, read, ClaimOf(e));
    }
  }

  /** Once a path is stored that cannot be read back, the log cannot be folded any more, and every
      claim and release is refused. */
  lemma {:induction false} UnreadableForever(s: State, id: string, agent: string, path: string, stored: string,
                                             mode: Mode, more: seq<Event>, halted: bool, c: Command)
    requires !s.halted && FoldOwnership(s.log).Ok? && PlainAgent(agent) && SizedPath(path)
    requires NormalizeClaimPath(path) == Ok(stored) && NormalizeClaimPath(stored).Err?
    requires !Conflicting(FoldOwnership(s.log).value, [stored], agent, mode)
    requires c.Claim? || c.Release?
    ensures var log := Next(s, OneClaim(id, agent, path, mode), false).0.log + more;
            FoldOwnership(log).Err? && Decide(State(log, halted), c).Err?
  {
    SingleClaim(s, id, agent, path, stored, mode);
    var log := s.log + [Recorded(s, id, agent, stored, mode)];
    UnreadableEvent(s.log, Recorded(s, id, agent, stored, mode), stored);
    assert (log + more)[..|log|] == log;
    ReadErrorPersists(log + more, |log|, FoldOwnership(log).error);
  }

  lemma {:induction false} UnreadableEvent(log: seq<Event>, e: Event, stored: string)
    requires FoldOwnership(log).Ok? && e.body.Ownership? && e.body.paths == [stored]
    requires NormalizeClaimPath(stored).Err?
    ensures FoldOwnership(log + [e]).Err?
  {
    assert (log + [e])[..|log|] == log && [stored][..0] == [];
    assert NormalizeAll([stored]).Err?;
  }

  /** `./C:/x` is accepted on an empty log, and is the last claim that ever is. */
  lemma {:induction false} UnreadableExample(id: string, agent: string, more: seq<Event>, c: Command)
    requires PlainAgent(agent) && (c.Claim? || c.Release?)
    ensures var log := Next(Start, OneClaim(id, agent, "./C:/x", Exclusive), false).0.log + more;
            FoldOwnership(log).Err? && Decide(State(log, false), c).Err?
  {
    var path, stored := UnreadableDrive();
    UnreadableForever(Start, id, agent, path, stored, Exclusive, more, false, c);
  }

  lemma {:induction false} UnreadableDrive() returns (path: string, stored: string)
    ensures path == "./C:/x" && SizedPath(path) && NormalizeClaimPath(path) == Ok(stored)
    ensures NormalizeClaimPath(stored).Err?
  {
    path, stored := "./C:/x", "C:/x";
    UncoveredDriveIsNotStable();
    TrimIsTrimmed(path);
    DriveStaysDrive(stored);
  }

  lemma {:induction false} RefusedExclusive(s: State, own: OwnershipMap, j: string, b: string, path: string,
                                            stored: string, q: string)
    requires FoldOwnership(s.log) == Ok(own) && NormalizeClaimPath(path) == Ok(stored)
    requires q in own && own[q].agent != b && PathsOverlap(stored, q)
    ensures Decide(s, OneClaim(j, b, path, Exclusive)).Err?
  {
    SingleNormalized(path, stored);
    assert Clash(own, stored, q, b, Exclusive);
  }

  /** What a single accepted claim of an unowned path makes of the map. */
  lemma {:induction false} ClaimedMap(s: State, own: OwnershipMap, id: string, agent: string, path: string,
                                      stored: string, read: string) returns (after: State, claim: Claim)
    requires !s.halted && FoldOwnership(s.log) == Ok(own) && PlainAgent(agent) && SizedPath(path)
    requires NormalizeClaimPath(path) == Ok(stored) && NormalizeClaimPath(stored) == Ok(read)
    requires forall q | q in own :: !PathsOverlap(stored, q)
    ensures after == Next(s, OneClaim(id, agent, path, Exclusive), false).0 && !after.halted
    ensures claim == Claim.Claim(agent, Exclusive, id, HighSeq(s.log) + 1)
    ensures FoldOwnership(after.log) == Ok(own[read := claim])
  {
    NoOverlapNoConflict(own, stored, agent, Exclusive);
    SingleClaim(s, id, agent, path, stored, Exclusive);
    SingleFold(s, id, agent, stored, read, Exclusive);
    after := s.(log := s.log + [Recorded(s, id, agent, stored, Exclusive)]);
    claim := Claim.Claim(agent, Exclusive, id, HighSeq(s.log) + 1);
  }

  lemma {:induction false} AcceptedExclusive(s: State, own: OwnershipMap, j: string, b: string, path: string,
                                             stored: string)
    requires !s.halted && FoldOwnership(s.log) == Ok(own) && PlainAgent(b) && SizedPath(path)
    requires NormalizeClaimPath(path) == Ok(stored) && forall q | q in own :: !PathsOverlap(stored, q)
    ensures Decide(s, OneClaim(j, b, path, Exclusive)).Ok?
  {
    NoOverlapNoConflict(own, stored, b, Exclusive);
    SingleNormalized(path, stored);
    SingleBody(path, stored, Exclusive);
    SingleAppend(s, j, b, Ownership([path], Exclusive), stored, Exclusive);
  }

  /** After the command one agent's claim of the path is all there is. */
  ghost predicate ReplacedBy(s: State, c: Command, read: string, agent: string) {
    var own := FoldOwnership(Next(s, c, false).0.log);
    own.Ok? && own.value.Keys == {read} && own.value[read].agent == agent
  }

  lemma {:induction false} SecondReplaces(s: State, first: Claim, j: string, b: string, path: string,
                                          stored: string, read: string)
    requires !s.halted && FoldOwnership(s.log) == Ok(map[read := first]) && PlainAgent(b) && SizedPath(path)
    requires NormalizeClaimPath(path) == Ok(stored) && NormalizeClaimPath(stored) == Ok(read)
    requires !PathsOverlap(stored, read)
    ensures ReplacedBy(s, OneClaim(j, b, path, Exclusive), read, b)
  {
    var after, second := ClaimedMap(s, map[read := first], j, b, path, stored, read);
  }

  /** A path that its own claim does not cover can be claimed exclusively by two agents in turn, and
      the second claim takes the place of the first. */
  lemma {:induction false} SecondClaimRefusedExactly(i: string, j: string, a: string, b: string, path: string,
                                                     stored: string, read: string) returns (s: State, first: Claim)
    requires PlainAgent(a) && PlainAgent(b) && a != b && SizedPath(path)
    requires NormalizeClaimPath(path) == Ok(stored) && NormalizeClaimPath(stored) == Ok(read)
    ensures s == Next(Start, OneClaim(i, a, path, Exclusive), false).0
    ensures FoldOwnership(s.log) == Ok(map[read := first]) && first.agent == a
    ensures Decide(s, OneClaim(j, b, path, Exclusive)).Err? <==> PathsOverlap(stored, read)
    ensures !PathsOverlap(stored, read) ==> ReplacedBy(s, OneClaim(j, b, path, Exclusive), read, b)
  {
    s, first := ClaimedMap(Start, map[], i, a, path, stored, read);
    assert map[][read := first] == map[read := first];
    if PathsOverlap(stored, read) {
      RefusedExclusive(s, map[read := first], j, b, path, stored, read);
    } else {
      AcceptedExclusive(s, map[read := first], j, b, path, stored);
      SecondReplaces(s, first, j, b, path, stored, read);
    }
  }

  /** `./ a` and the like, for any plain name: both claims are accepted, and only the second is left. */
  lemma {:induction false} SecondClaimExample(i: string, j: string, a: string, b: string, name: string)
    returns (s: State, first: Claim)
    requires PlainAgent(a) && PlainAgent(b) && a != b && PlainName(name) && |name| < 1000
    ensures s == Next(Start, OneClaim(i, a, "./ " + name, Exclusive), false).0
    ensures FoldOwnership(s.log) == Ok(map[name := first]) && first.agent == a
    ensures ReplacedBy(s, OneClaim(j, b, "./ " + name, Exclusive), name, b)
  {
    var path, stored := "./ " + name, " " + name;
    DotSpaceNormalizes(name);
    PlainNameIsStable(name);
    NoOverlapByFirst(stored, name);
    s, first := SecondClaimRefusedExactly(i, j, a, b, path, stored, name);
  }

  // ---- The exact condition ----

  /** The stored form reads back, and as a harmless path. */
  predicate ReadsSafely(stored: string) {
    NormalizeClaimPath(stored).Ok? && Harmless(stored, NormalizeClaimPath(stored).value)
  }

  ghost predicate PlainRun(commands: seq<Command>) {
    forall c | c in commands :: PlainNames(c)
  }

  ghost predicate SafeAfter(commands: seq<Command>, c: Command) {
    StillExcludes(Run(Start, commands, false).0, c)
  }

  lemma {:induction false} ExposedIsSized(path: string, stored: string, read: string, t: string)
    requires SizedPath(path) && NormalizeClaimPath(path) == Ok(stored) && NormalizeClaimPath(stored) == Ok(read)
    requires Exposes(stored, read, t) && (|t| <= |read| + 2 || |t| == 1)
    ensures SizedPath(t)
  {
    NormalizedIsCanonical(path);
    StableFacts(t);
    TrimmedStays(t);
    if |t| != 1 && read != "." {
      DotIsStable();
      ReadIsShorter(stored, read);
      StoredIsShorter(path, stored);
      TrimIsTrimmed(path);
      SlashesKeepEdges(Trim(path));
    }
  }

  lemma {:induction false} StableClaimIsPlain(i: string, a: string, t: string)
    requires Stable(t)
    ensures PlainRun([OneClaim(i, a, t, Exclusive)])
  {
  }

  lemma {:induction false} MeetingBreaks(s: State, j: string, b: string, path: string, stored: string, read: string,
                                         t: string, claim: Claim)
    requires !s.halted && FoldOwnership(s.log) == Ok(map[t := claim]) && claim.mode.Exclusive? && claim.agent != b
    requires PlainAgent(b) && SizedPath(path) && Canonical(t)
    requires t != read && PathsOverlap(t, read) && !PathsOverlap(stored, t)
    requires NormalizeClaimPath(path) == Ok(stored) && NormalizeClaimPath(stored) == Ok(read)
    ensures !StillExcludes(s, OneClaim(j, b, path, Exclusive))
  {
    NextExclusive(s, map[t := claim], j, b, path, stored, read);
    NormalizedIsCanonical(path);
    NormalizedIsCanonical(stored);
    OverlapIsSharedFile(t, read);
    var file :| Covers(t, file) && Covers(read, file);
    BreaksExclusion(map[t := claim][read := Claim.Claim(b, Exclusive, j, HighSeq(s.log) + 1)], t, read, file);
  }

  /** One agent claims the path that is exposed, another the path that exposes it. */
  lemma {:induction false} ExposedBreaks(i: string, j: string, a: string, b: string, path: string, stored: string,
                                         read: string, t: string)
    requires PlainAgent(a) && PlainAgent(b) && a != b && SizedPath(path) && SizedPath(t)
    requires NormalizeClaimPath(path) == Ok(stored) && NormalizeClaimPath(stored) == Ok(read)
    requires Exposes(stored, read, t)
    ensures var first := OneClaim(i, a, t, Exclusive);
            PlainRun([first]) && !SafeAfter([first], OneClaim(j, b, path, Exclusive))
  {
    var first := OneClaim(i, a, t, Exclusive);
    StableClaimIsPlain(i, a, t);
    StableFacts(t);
    FirstExclusive(i, a, t);
    RunSnoc(Start, [], first, false);
    assert [] + [first] == [first];
    MeetingBreaks(Run(Start, [first], false).0, j, b, path, stored, read, t, Claim.Claim(a, Exclusive, i, 0));
  }

  lemma {:induction false} UnreadableBreaks(j: string, b: string, path: string, stored: string)
    requires PlainAgent(b) && SizedPath(path) && NormalizeClaimPath(path) == Ok(stored)
    requires NormalizeClaimPath(stored).Err?
    ensures PlainRun([]) && !SafeAfter([], OneClaim(j, b, path, Exclusive))
  {
    NoOverlapNoConflict(map[], stored, b, Exclusive);
    SingleClaim(Start, j, b, path, stored, Exclusive);
    UnreadableEvent([], Recorded(Start, j, b, stored, Exclusive), stored);
  }

  /** Claims of a path keep the log readable and the map exclusive, in every state that claims and
      releases of stable paths reach and whoever makes them in whichever mode, exactly when its
      stored form reads back as itself or as a path behind whitespace or a bare drive. */
  lemma {:induction false} ClaimSafeExactly(path: string, stored: string)
    requires SizedPath(path) && NormalizeClaimPath(path) == Ok(stored)
    ensures (forall commands, c | PlainRun(commands) && ClaimsOnly(c, path) :: SafeAfter(commands, c))
            <==> ReadsSafely(stored)
  {
    if ReadsSafely(stored) {
      forall commands, c | PlainRun(commands) && ClaimsOnly(c, path) ensures SafeAfter(commands, c) {
        StartStands();
        RunKeepsOrderly(Start, commands);
        HarmlessKeeps(Run(Start, commands, false).0, c, path, stored, NormalizeClaimPath(stored).value);
      }
    } else {
      var commands, c := UnsafeRun(path, stored);
    }
  }

  lemma {:induction false} TwoAgents() returns (a: string, b: string)
    ensures PlainAgent(a) && PlainAgent(b) && a != b
  {
    a, b := "a", "b";
    assert a[0] != b[0] && Trim(a) == a && Trim(b) == b;
  }

  lemma {:induction false} UnsafeRun(path: string, stored: string) returns (commands: seq<Command>, c: Command)
    requires SizedPath(path) && NormalizeClaimPath(path) == Ok(stored) && !ReadsSafely(stored)
    ensures PlainRun(commands) && ClaimsOnly(c, path) && !SafeAfter(commands, c)
  {
    var a, b := TwoAgents();
    c := OneClaim(b, b, path, Exclusive);
    if NormalizeClaimPath(stored).Err? {
      UnreadableBreaks(b, b, path, stored);
      commands := [];
    } else {
      var read := NormalizeClaimPath(stored).value;
      NormalizedIsCanonical(path);
      var t := Exposed(stored, read);
      ExposedIsSized(path, stored, read, t);
      ExposedBreaks(a, b, a, b, path, stored, read, t);
      commands := [OneClaim(a, a, t, Exclusive)];
    }
  }
}
