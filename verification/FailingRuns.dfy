/** Runs of commands on which a promise of the coordination log fails, for any names that fit. */
module FailingRuns {
  import opened Wrappers
  import opened Strings
  import opened Paths
  import opened Events
  import opened StateKeys
  import opened Ownership
  import opened Retention
  import opened Contracts
  import opened Coordination

  // ---- Claims and releases of one path ----

  function OneClaim(id: string, agent: string, path: string, mode: Mode): Command {
    Command.Claim(id, 0, agent, [path], mode)
  }

  function OneRelease(id: string, agent: string, path: string): Command {
    Command.Release(id, 0, agent, [path])
  }

  ghost function Recorded(s: State, id: string, agent: string, path: string, mode: Mode): Event {
    Event(HighSeq(s.log) + 1, id, agent, "*", 0, Ownership([path], mode))
  }

  predicate PlainAgent(agent: string) {
    ValidName(agent) && Trimmed(agent)
  }

  predicate SizedPath(path: string) {
    1 <= |Trim(path)| <= 1024
  }

  lemma {:induction false} SingleNormalized(path: string, normal: string)
    requires NormalizeClaimPath(path) == Ok(normal)
    ensures NormalizeAll([path]) == Ok([normal])
  {
    assert [path][..0] == [] && [] + [normal] == [normal];
  }

  lemma {:induction false} SingleBody(path: string, stored: string, mode: Mode)
    requires SizedPath(path) && NormalizeClaimPath(path) == Ok(stored)
    ensures CheckedBody(Ownership([path], mode)) == Ok(Ownership([stored], mode))
  {
    SingleNormalized(path, stored);
    NormalizeAllTrimmed([path]);
  }

  lemma {:induction false} SingleAppend(s: State, id: string, agent: string, body: Body, stored: string, mode: Mode)
    requires !s.halted && PlainAgent(agent)
    requires CheckedBody(body) == Ok(Ownership([stored], mode))
    ensures AppendLocked(s, id, 0, agent, "*", body) == Ok(Recorded(s, id, agent, stored, mode))
  {
    CheckedAppend(s.log, id, agent, "*", stored, mode);
  }

  lemma {:induction false} CheckedAppend(log: seq<Event>, id: string, agent: string, everybody: string, stored: string,
                                         mode: Mode)
    requires PlainAgent(agent) && everybody == "*"
    ensures AppendChecked(log, id, 0, agent, everybody, Ownership([stored], mode))
            == Ok(Event(HighSeq(log) + 1, id, agent, everybody, 0, Ownership([stored], mode)))
  {
    TrimmedStays(agent);
    TrimmedStays(everybody);
  }

  /** A claim of one path is decided and recorded under its normal form. */
  lemma {:induction false} SingleClaim(s: State, id: string, agent: string, path: string, stored: string, mode: Mode)
    requires !s.halted && FoldOwnership(s.log).Ok? && PlainAgent(agent)
    requires SizedPath(path) && NormalizeClaimPath(path) == Ok(stored)
    requires !Conflicting(FoldOwnership(s.log).value, [stored], agent, mode)
    ensures Next(s, OneClaim(id, agent, path, mode), false).0
            == s.(log := s.log + [Recorded(s, id, agent, stored, mode)])
  {
    SingleNormalized(path, stored);
    SingleBody(path, stored, mode);
    SingleAppend(s, id, agent, Ownership([path], mode), stored, mode);
  }

  lemma {:induction false} SingleRelease(s: State, id: string, agent: string, path: string)
    requires !s.halted && FoldOwnership(s.log).Ok? && PlainAgent(agent) && SizedPath(path) && Stable(path)
    requires var own := FoldOwnership(s.log).value; path in own ==> own[path].agent == agent
    ensures Next(s, OneRelease(id, agent, path), false).0
            == s.(log := s.log + [Recorded(s, id, agent, path, Mode.Release)])
  {
    SingleNormalized(path, path);
    SingleBody(path, path, Mode.Release);
    SingleAppend(s, id, agent, Ownership([path], Mode.Release), path, Mode.Release);
    NoForeign(FoldOwnership(s.log).value, [path], agent);
  }

  /** It is read back under the normal form of that. */
  lemma {:induction false} SingleFold(s: State, id: string, agent: string, stored: string, read: string, mode: Mode)
    requires FoldOwnership(s.log).Ok? && NormalizeClaimPath(stored) == Ok(read) && !mode.Release?
    ensures FoldOwnership(s.log + [Recorded(s, id, agent, stored, mode)])
            == Ok(FoldOwnership(s.log).value[read := Claim.Claim(agent, mode, id, HighSeq(s.log) + 1)])
  {
    var own, e := FoldOwnership(s.log).value, Recorded(s, id, agent, stored, mode);
    SingleNormalized(stored, read);
    assert (s.log + [e])[..|s.log|] == s.log;
    assert [read][..0] == [];
    assert ApplyPaths(own, [read], e) == ApplyPath(own, read, e);
  }

  lemma {:induction false} RunOfTwo(first: Command, second: Command, compacting: bool)
    ensures Run(Start, [first, second], compacting).0
            == Next(Next(Start, first, compacting).0, second, compacting).0
  {
    RunSnoc(Start, [], first, compacting);
    RunSnoc(Start, [first], second, compacting);
    assert [] + [first] == [first] && [first] + [second] == [first, second];
  }

  // ---- Paths that do not stay put ----

  lemma {:induction false} NoOverlapNoConflict(own: OwnershipMap, stored: string, agent: string, mode: Mode)
    requires forall q | q in own :: !PathsOverlap(stored, q)
    ensures !Conflicting(own, [stored], agent, mode)
  {
  }

  lemma {:induction false} BreaksExclusion(own: OwnershipMap, p: string, q: string, file: seq<string>)
    requires p in own && q in own && own[p].agent != own[q].agent && !own[p].mode.Shared?
    requires Covers(p, file) && Covers(q, file)
    ensures !Exclusion(own)
  {
  }

  lemma {:induction false} FirstExclusive(i: string, a: string, inner: string)
    requires PlainAgent(a) && SizedPath(inner) && Stable(inner)
    ensures var s := Next(Start, OneClaim(i, a, inner, Exclusive), false).0;
            !s.halted && FoldOwnership(s.log) == Ok(map[inner := Claim.Claim(a, Exclusive, i, 0)])
  {
    NoOverlapNoConflict(map[], inner, a, Exclusive);
    SingleClaim(Start, i, a, inner, inner, Exclusive);
    SingleFold(Start, i, a, inner, inner, Exclusive);
  }

  lemma {:induction false} NextExclusive(s: State, own: OwnershipMap, j: string, b: string, path: string,
                                         stored: string, read: string)
    requires !s.halted && FoldOwnership(s.log) == Ok(own) && PlainAgent(b) && SizedPath(path)
    requires NormalizeClaimPath(path) == Ok(stored) && NormalizeClaimPath(stored) == Ok(read)
    requires forall q | q in own :: !PathsOverlap(stored, q)
    ensures var after := Next(s, OneClaim(j, b, path, Exclusive), false).0;
            FoldOwnership(after.log) == Ok(own[read := Claim.Claim(b, Exclusive, j, HighSeq(s.log) + 1)])
  {
    NoOverlapNoConflict(own, stored, b, Exclusive);
    SingleClaim(s, j, b, path, stored, Exclusive);
    SingleFold(s, j, b, stored, read, Exclusive);
  }

  /** Exclusion needs stable paths: a claim is checked under the first normal form of its path,
      and owns the second from then on. */
  lemma {:induction false} UnstablePathBreaksExclusion(i: string, j: string, a: string, b: string, inner: string,
                                                       path: string, stored: string, read: string)
    requires PlainAgent(a) && PlainAgent(b) && a != b && SizedPath(inner) && SizedPath(path) && Stable(inner)
    requires NormalizeClaimPath(path) == Ok(stored) && NormalizeClaimPath(stored) == Ok(read)
    requires !PathsOverlap(stored, inner) && Covers(read, Segments(inner)) && read != inner
    ensures var log := Run(Start, [OneClaim(i, a, inner, Exclusive), OneClaim(j, b, path, Exclusive)], false).0.log;
            FoldOwnership(log).Ok? && !Exclusion(FoldOwnership(log).value)
  {
    var first, second := OneClaim(i, a, inner, Exclusive), OneClaim(j, b, path, Exclusive);
    FirstExclusive(i, a, inner);
    var s := Next(Start, first, false).0;
    NextExclusive(s, FoldOwnership(s.log).value, j, b, path, stored, read);
    RunOfTwo(first, second, false);
    BreaksExclusion(FoldOwnership(Next(s, second, false).0.log).value, inner, read, Segments(inner));
  }

  /** One agent claims `a/x`, another then `./ a`, for any names: both claims are exclusive, and
      both cover `a/x`. */
  lemma {:induction false} UnstablePathExample(i: string, j: string, a: string, b: string, name: string, child: string)
    requires PlainAgent(a) && PlainAgent(b) && a != b
    requires PlainName(name) && PlainName(child) && |name| + |child| < 1000
    ensures var first := OneClaim(i, a, name + "/" + child, Exclusive);
            var second := OneClaim(j, b, "./ " + name, Exclusive);
            var log := Run(Start, [first, second], false).0.log;
            FoldOwnership(log).Ok? && !Exclusion(FoldOwnership(log).value)
  {
    var inner, path, stored := name + "/" + child, "./ " + name, " " + name;
    UnstableReading(name, child);
    UnstablePathBreaksExclusion(i, j, a, b, inner, path, stored, name);
  }

  // ---- A shared claim in place of another agent's ----

  /** Two shared claims of one path and a release by the second agent. */
  ghost function Takeover(i: string, j: string, k: string, a: string, b: string, path: string): seq<Event> {
    [Event(0, i, b, "*", 0, Ownership([path], Shared))]
    + [Event(1, j, a, "*", 0, Ownership([path], Shared)), Event(2, k, a, "*", 0, Ownership([path], Mode.Release))]
  }

  lemma {:induction false} FirstShared(i: string, b: string, path: string)
    requires PlainAgent(b) && SizedPath(path) && Stable(path)
    ensures var s := Next(Start, OneClaim(i, b, path, Shared), false).0;
            && s == State([Event(0, i, b, "*", 0, Ownership([path], Shared))], false) && HighSeq(s.log) == 0
            && FoldOwnership(s.log) == Ok(map[path := Claim.Claim(b, Shared, i, 0)])
  {
    NoOverlapNoConflict(map[], path, b, Shared);
    SingleClaim(Start, i, b, path, path, Shared);
    SingleFold(Start, i, b, path, path, Shared);
    assert Start.log + [Recorded(Start, i, b, path, Shared)] == [Recorded(Start, i, b, path, Shared)];
    assert [Recorded(Start, i, b, path, Shared)][..0] == [];
  }

  lemma {:induction false} SharedNoConflict(own: OwnershipMap, path: string, agent: string)
    requires forall q | q in own :: own[q].mode.Shared?
    ensures !Conflicting(own, [path], agent, Shared)
  {
  }

  lemma {:induction false} HighOfTwo(first: Event, second: Event)
    requires first.seqNo == 0 && second.seqNo == 1
    ensures HighSeq([first, second]) == 1 && [first] + [second] == [first, second]
  {
    assert [first, second][..1] == [first] && [first][..0] == [];
    assert HighSeq([first]) == 0;
  }

  lemma {:induction false} SecondShared(s: State, first: Event, j: string, a: string, path: string, own: OwnershipMap)
    requires s == State([first], false) && first.seqNo == 0 && HighSeq(s.log) == 0
    requires PlainAgent(a) && SizedPath(path) && Stable(path)
    requires FoldOwnership(s.log) == Ok(own) && forall q | q in own :: own[q].mode.Shared?
    ensures var second := Recorded(s, j, a, path, Shared);
            && second.seqNo == 1 && Next(s, OneClaim(j, a, path, Shared), false).0 == State([first, second], false)
            && FoldOwnership([first, second]) == Ok(own[path := Claim.Claim(a, Shared, j, 1)])
  {
    SharedNoConflict(own, path, a);
    HighOfTwo(first, Recorded(s, j, a, path, Shared));
    SingleClaim(s, j, a, path, path, Shared);
    SingleFold(s, j, a, path, path, Shared);
  }

  lemma {:induction false} TakeoverLog(i: string, j: string, k: string, a: string, b: string, path: string)
    requires PlainAgent(a) && PlainAgent(b) && SizedPath(path) && Stable(path)
    ensures var commands := [OneClaim(i, b, path, Shared), OneClaim(j, a, path, Shared), OneRelease(k, a, path)];
            Run(Start, commands, false).0 == State(Takeover(i, j, k, a, b, path), false)
            && Run(Start, commands, true).0 == Run(Start, commands, false).0
  {
    var first, second, third := OneClaim(i, b, path, Shared), OneClaim(j, a, path, Shared), OneRelease(k, a, path);
    FirstShared(i, b, path);
    var s1 := Next(Start, first, false).0;
    SecondShared(s1, s1.log[0], j, a, path, FoldOwnership(s1.log).value);
    var s := Next(s1, second, false).0;
    HighOfTwo(s.log[0], s.log[1]);
    SingleRelease(s, k, a, path);
    RunOfThree(first, second, third, false);
    RunOfThree(first, second, third, true);
    assert Next(s, third, false).0.log == Takeover(i, j, k, a, b, path);
  }

  lemma {:induction false} SameWithoutCompaction(s: State, c: Command)
    requires !c.Compact?
    ensures Next(s, c, true) == Next(s, c, false)
  {
  }

  lemma {:induction false} RunOfThree(first: Command, second: Command, third: Command, compacting: bool)
    requires !first.Compact? && !second.Compact? && !third.Compact?
    ensures Run(Start, [first, second, third], compacting).0
            == Next(Next(Next(Start, first, false).0, second, false).0, third, false).0
  {
    RunSnoc(Start, [first, second], third, compacting);
    RunOfTwo(first, second, compacting);
    assert [first, second] + [third] == [first, second, third];
    SameWithoutCompaction(Start, first);
    SameWithoutCompaction(Next(Start, first, false).0, second);
    SameWithoutCompaction(Next(Next(Start, first, false).0, second, false).0, third);
  }

  lemma {:induction false} AllOld(log: seq<Event>)
    requires forall e | e in log :: e.timestamp == 0
    ensures KeepStart(log, 1, |log| + 1) == |log|
  {
    AgeStartMeaning(log, 1);
    assert forall n | 0 <= n < |log| :: log[n] in log;
  }

  lemma {:induction false} FullyCompacted(log: seq<Event>, l: string, now: int)
    requires |log| == 3 && forall e | e in log :: e.timestamp == 0
    ensures Next(State(log, false), Compact(l, now, 1, 4, 30), false).0.log == log
    ensures Next(State(log, false), Compact(l, now, 1, 4, 30), true).0.log == CompactAt(log, |log|, l, now)
  {
    AllOld(log);
  }

  lemma {:induction false} TakeoverReads(i: string, j: string, k: string, l: string, now: int,
                                         a: string, b: string, path: string)
    requires a != b && Stable(path) && ',' !in path && ':' !in a && ':' !in b
    ensures var log := Takeover(i, j, k, a, b, path);
            var compacted := CompactAt(log, |log|, l, now);
            && FoldOwnership(log).Ok? && path !in FoldOwnership(log).value
            && FoldOwnership(compacted).Ok? && path in FoldOwnership(compacted).value
            && FoldOwnership(compacted).value[path] == Claim.Claim(b, Shared, i, 0)
  {
    var log := Takeover(i, j, k, a, b, path);
    var first, c, r := log[0], log[1], log[2];
    assert log == [first] + [c, r];
    assert Increasing(log) && LastTouch([first], first, path);
    forall e | e in log ensures KeySafe(e) && e.body.paths == [path] { assert e == first || e == c || e == r; }
    OwnerAfterRelease([first], c, r, path);
    ReplacedClaimSurvives([first], c, r, path, first, l, now);
    var compacted := CompactAt(log, |log|, l, now);
    CompactionKeepsState(log, |log|, l, now);
    forall e, p | e in compacted && Touches(e, p) ensures Stable(p) {
      assert StateKey(e).Some?;
      assert e in log;
    }
    FoldMeaning(log);
    FoldMeaning(compacted);
    assert Lookup(FoldOwnership(log).value, path) == None;
    assert Lookup(FoldOwnership(compacted).value, path) == Some(Claim.Claim(b, Shared, i, 0));
  }

  /** The run: b and a share a path, a releases it, and the log is compacted. Without the compaction
      nobody owns the path; with it b does. */
  lemma {:induction false} SharedTakeoverRun(i: string, j: string, k: string, l: string, now: int,
                                             a: string, b: string, path: string)
    requires PlainAgent(a) && PlainAgent(b) && a != b && SizedPath(path)
    requires Stable(path) && ',' !in path && ':' !in a && ':' !in b
    ensures var commands := [OneClaim(i, b, path, Shared), OneClaim(j, a, path, Shared), OneRelease(k, a, path)]
                            + [Compact(l, now, 1, 4, 30)];
            var reference := FoldOwnership(Run(Start, commands, false).0.log);
            var actual := FoldOwnership(Run(Start, commands, true).0.log);
            && reference.Ok? && path !in reference.value
            && actual.Ok? && path in actual.value && actual.value[path] == Claim.Claim(b, Shared, i, 0)
  {
    var before := [OneClaim(i, b, path, Shared), OneClaim(j, a, path, Shared), OneRelease(k, a, path)];
    TakeoverLog(i, j, k, a, b, path);
    RunSnoc(Start, before, Compact(l, now, 1, 4, 30), false);
    RunSnoc(Start, before, Compact(l, now, 1, 4, 30), true);
    FullyCompacted(Takeover(i, j, k, a, b, path), l, now);
    TakeoverReads(i, j, k, l, now, a, b, path);
  }

  // ---- Names with whitespace around them ----

  function AutoPublish(id: string, from: string, name: string): Command {
    Publish(id, 0, from, name, "text", None)
  }

  /** Publishing twice, the second time with whitespace around the name. */
  lemma {:induction false} PaddedNameIsRefused(id: string, next: string, from: string, name: string, padded: string)
    requires ValidName(from) && 1 <= |name| <= 200 && Trimmed(name) && Trim(padded) == name != padded
    ensures var outcomes := Run(Start, [AutoPublish(id, from, name), AutoPublish(next, from, padded)], true).1;
            |outcomes| == 2 && outcomes[0].Appended? && outcomes[1] == Rejected(StaleRevision(1))
  {
    var first, second := AutoPublish(id, from, name), AutoPublish(next, from, padded);
    TrimmedStays(name);
    assert ValidName("*");
    var e := Decide(Start, first).value;
    var s := Start.(log := [e]);
    assert Start.log + [e] == [e] && [e][..0] == [];
    assert MaxRevision([e], name) == 1 && MaxRevision([e], padded) == 0;
    assert Decide(s, second) == Err(StaleRevision(1));
    assert Next(Start, first, true) == (s, Appended(e)) && Next(s, second, true) == (s, Rejected(StaleRevision(1)));
    assert [first, second][1..] == [second] && [second][1..] == [];
    assert Run(s, [second], true).1 == [Rejected(StaleRevision(1))];
  }

  /** The run that publishes `n` and then ` n`. */
  lemma {:induction false} AutoRevisionExample()
    ensures var outcomes := Run(Start, [AutoPublish("i", "a", "n"), AutoPublish("j", "a", " n")], true).1;
            |outcomes| == 2 && outcomes[1] == Rejected(StaleRevision(1))
  {
    var agent, name, padded := "a", "n", " n";
    assert padded[1..] == name && name[..|name|] == name;
    assert TrimStart(padded) == TrimStart(name) == name && TrimEnd(name) == name;
    assert Trim(agent) == agent;
    PaddedNameIsRefused("i", "j", agent, name, padded);
  }
}
