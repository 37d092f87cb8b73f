/** Which agent owns a file: the longest claim that covers it, found in one pass over the map
    in whatever order it is enumerated. */
module OwnerLookup {
  import opened Wrappers
  import opened Strings
  import opened Paths
  import opened Events
  import opened Ownership
  import opened Coordination

  datatype Entry = Entry(path: string, agent: string)

  // ---- The lookup ----

  function NormalizeProjectPath(value: string): string {
    var normalized := PosixNormalize(ToSlashes(value));
    if "./" <= normalized then normalized[2..] else normalized
  }

  function WithoutSlash(path: string): string {
    if path != "" && path[|path| - 1] == '/' then path[..|path| - 1] else path
  }

  predicate Applies(owned: string, file: string) {
    file == owned || owned + "/" <= file || owned == "."
  }

  /** The paths as the lookup compares them. */
  function Prepared(entries: seq<Entry>, normalize: string -> string): (r: seq<Entry>)
    ensures |r| == |entries|
    ensures forall i | 0 <= i < |r| :: r[i] == Entry(WithoutSlash(normalize(entries[i].path)), entries[i].agent)
  {
    seq(|entries|, i requires 0 <= i < |entries| => Entry(WithoutSlash(normalize(entries[i].path)), entries[i].agent))
  }

  /** Entry i is the first among the longest that apply. */
  ghost predicate IsBest(entries: seq<Entry>, i: int, file: string) {
    && 0 <= i < |entries| && entries[i].path != "" && Applies(entries[i].path, file)
    && (forall j | 0 <= j < |entries| && Applies(entries[j].path, file) :: |entries[j].path| <= |entries[i].path|)
    && (forall j | 0 <= j < i && Applies(entries[j].path, file) :: |entries[j].path| < |entries[i].path|)
  }

  /** Every best entry has this path. */
  ghost predicate BestPath(entries: seq<Entry>, file: string, best: string) {
    forall i | 0 <= i < |entries| && IsBest(entries, i, file) :: entries[i].path == best
  }

  ghost predicate Answers(agent: Option<string>, entries: seq<Entry>, file: string) {
    match agent
    case None => forall j | 0 <= j < |entries| && Applies(entries[j].path, file) :: entries[j].path == ""
    case Some(a) => exists i :: IsBest(entries, i, file) && entries[i].agent == a
  }

  /** findOwner, with normalizeProjectPath, and findOwnerForPath, which compares the paths as they are. */
  method FindOwner(file: string, entries: seq<Entry>, normalize: string -> string) returns (agent: Option<string>)
    ensures Answers(agent, Prepared(entries, normalize), normalize(file))
  {
    var target := normalize(file);
    ghost var prepared := Prepared(entries, normalize);
    var best := "";
    agent := None;
    for k := 0 to |entries|
      invariant agent.None? ==> best == ""
      invariant Answers(agent, prepared[..k], target)
      invariant agent.Some? ==> best != "" && BestPath(prepared[..k], target, best)
    {
      var owned := WithoutSlash(normalize(entries[k].path));
      BestNext(prepared, k, target, best, agent);
      if Applies(owned, target) && |owned| > |best| {
        best, agent := owned, Some(entries[k].agent);
      }
    }
    assert prepared[..|entries|] == prepared;
  }

  /** One more entry: it is the best exactly when it applies and is longer than the best so far. */
  lemma {:induction false} BestNext(entries: seq<Entry>, k: nat, file: string, best: string, agent: Option<string>)
    requires k < |entries| && Answers(agent, entries[..k], file)
    requires agent.None? ==> best == ""
    requires agent.Some? ==> best != "" && BestPath(entries[..k], file, best)
    ensures var better := Applies(entries[k].path, file) && |entries[k].path| > |best|;
            && Answers(if better then Some(entries[k].agent) else agent, entries[..k + 1], file)
            && (better ==> BestPath(entries[..k + 1], file, entries[k].path))
            && (!better && agent.Some? ==> BestPath(entries[..k + 1], file, best))
  {
    var before, after := entries[..k], entries[..k + 1];
    assert after == before + [entries[k]];
    if Applies(entries[k].path, file) && |entries[k].path| > |best| {
      assert IsBest(after, k, file);
    } else if agent.Some? {
      var i :| IsBest(before, i, file) && before[i].agent == agent.value;
      assert IsBest(after, i, file) && after[i].agent == agent.value;
    }
  }

  // ---- What it finds in an ownership map ----

  lemma {:induction false} CanonicalText(path: string)
    requires Canonical(path)
    ensures path != "" && path[|path| - 1] != '/' && WithoutSlash(path) == path
  {
    if path != "." {
      var parts := Split(path, '/');
      JoinSplit(path, '/');
      Names(parts);
      JoinedNames(parts);
    }
  }

  lemma {:induction false} AppliesIsCovers(path: string, file: string)
    requires Canonical(path) && Canonical(file)
    ensures Applies(path, file) <==> Covers(path, Segments(file))
  {
    if path != "." {
      if file == "." {
        assert |path + "/"| > 1 ==> !(path + "/" <= file);
        JoinSplit(path, '/');
      } else {
        SubtreeExactly(file, path);
        if Segments(path) == Segments(file) {
          JoinSplit(path, '/');
          JoinSplit(file, '/');
        }
      }
    }
  }

  lemma {:induction false} Names(parts: seq<string>)
    requires forall i | 0 <= i < |parts| :: IsName(parts[i])
    ensures Reduced(parts)
  {
  }

  lemma {:induction false} DotIsFixed(path: string)
    requires path == "."
    ensures PosixNormalize(path) == path
  {
    SplitPlain(path, '/');
    var parts := Split(path, '/');
    assert |parts| == 1 && parts[..0] == [] && parts[0] == ".";
    assert Walk(parts, true) == [];
  }

  /** Claim paths are fixed points of the project-path normalisation, so both lookups compare
      the same strings. */
  lemma {:induction false} CanonicalIsFixed(path: string)
    requires Canonical(path)
    ensures NormalizeProjectPath(path) == path
  {
    CanonicalHasNoBackslash(path);
    assert ToSlashes(path) == path;
    if path == "." {
      DotIsFixed(path);
    } else {
      var parts := Split(path, '/');
      JoinSplit(path, '/');
      Names(parts);
      JoinedNames(parts);
      WalkOfNames(parts);
      FirstPiece(path, ".", '/');
      assert "." + "/" == "./";
    }
  }

  /** The path as the other lookup compares it. */
  function AsItIs(path: string): string {
    path
  }

  /** A file or directory named in a text, possibly with a slash at its end. */
  predicate Mentioned(file: string) {
    Canonical(WithoutSlash(file))
  }

  function FileOf(file: string): seq<string> {
    Segments(WithoutSlash(file))
  }

  lemma {:induction false} AppliesToFile(path: string, file: string)
    requires Canonical(path) && Mentioned(file)
    ensures Applies(path, file) <==> Covers(path, FileOf(file))
  {
    var bare := WithoutSlash(file);
    AppliesIsCovers(path, bare);
    CanonicalText(path);
    if file != bare {
      assert file == bare + "/";
      assert path + "/" <= file <==> path == bare || path + "/" <= bare;
    }
  }

  /** The entries list the map, each path once, in any order. */
  ghost predicate Lists(entries: seq<Entry>, own: OwnershipMap) {
    && (forall p | p in own :: exists i :: 0 <= i < |entries| && entries[i].path == p)
    && (forall i | 0 <= i < |entries| :: entries[i].path in own && own[entries[i].path].agent == entries[i].agent)
    && (forall i, j | 0 <= i < j < |entries| :: entries[i].path != entries[j].path)
  }

  /** The path is one of the longest claims that cover the file. */
  ghost predicate LongestCover(own: OwnershipMap, p: string, file: seq<string>) {
    && p in own && Covers(p, file)
    && forall q | q in own && Covers(q, file) :: |q| <= |p|
  }

  /** Both lookups compare the paths of a map as they are. */
  lemma {:induction false} PreparedAsListed(own: OwnershipMap, entries: seq<Entry>)
    requires CanonicalKeys(own) && Lists(entries, own)
    ensures Prepared(entries, AsItIs) == entries
    ensures Prepared(entries, NormalizeProjectPath) == entries
  {
    forall i | 0 <= i < |entries|
      ensures WithoutSlash(entries[i].path) == entries[i].path == NormalizeProjectPath(entries[i].path)
    {
      CanonicalText(entries[i].path);
      CanonicalIsFixed(entries[i].path);
    }
  }

  /** Of whatever enumeration: a lookup fails exactly when no claim covers the file, and
      otherwise names the agent of one of the longest claims that do. */
  lemma {:induction false} FindsLongestCover(own: OwnershipMap, entries: seq<Entry>, file: string,
                                             agent: Option<string>)
    requires CanonicalKeys(own) && Mentioned(file) && Lists(entries, own)
    requires Answers(agent, entries, file)
    ensures agent.None? <==> forall p | p in own :: !Covers(p, FileOf(file))
    ensures agent.Some? ==> exists p :: LongestCover(own, p, FileOf(file)) && own[p].agent == agent.value
  {
    forall p | p in own
      ensures exists i :: 0 <= i < |entries| && entries[i].path == p
                          && (Applies(entries[i].path, file) <==> Covers(p, FileOf(file)))
      ensures p != ""
    {
      var i :| 0 <= i < |entries| && entries[i].path == p;
      AppliesToFile(p, file);
      CanonicalText(p);
      assert entries[i].path == p;
    }
    if agent.Some? {
      var i :| IsBest(entries, i, file) && entries[i].agent == agent.value;
      var p := entries[i].path;
      AppliesToFile(p, file);
      forall q | q in own && Covers(q, FileOf(file)) ensures |q| <= |p| {
        var j :| 0 <= j < |entries| && entries[j].path == q
                 && (Applies(entries[j].path, file) <==> Covers(q, FileOf(file)));
      }
      assert LongestCover(own, p, FileOf(file));
    }
  }

  /** The converse: whoever has a longest cover is the answer for the enumerations that start with it. */
  lemma {:induction false} FirstIsBest(own: OwnershipMap, entries: seq<Entry>, file: string, p: string)
    requires CanonicalKeys(own) && Mentioned(file) && Lists(entries, own)
    requires LongestCover(own, p, FileOf(file)) && entries != [] && entries[0].path == p
    ensures Answers(Some(own[p].agent), entries, file)
  {
    AppliesToFile(p, file);
    CanonicalText(p);
    forall j | 0 <= j < |entries| && Applies(entries[j].path, file) ensures |entries[j].path| <= |p| {
      AppliesToFile(entries[j].path, file);
    }
    assert IsBest(entries, 0, file);
  }

  /** The given keys of the map, in some order. */
  lemma {:induction false} Enumerate(own: OwnershipMap, keys: set<string>) returns (entries: seq<Entry>)
    requires keys <= own.Keys
    ensures forall p | p in keys :: exists i :: 0 <= i < |entries| && entries[i].path == p
    ensures forall i | 0 <= i < |entries| :: entries[i].path in keys
                                             && own[entries[i].path].agent == entries[i].agent
    ensures forall i, j | 0 <= i < j < |entries| :: entries[i].path != entries[j].path
    decreases |keys|
  {
    if keys == {} {
      entries := [];
    } else {
      var first :| first in keys;
      var rest := Enumerate(own, keys - {first});
      entries := [Entry(first, own[first].agent)] + rest;
      forall p | p in keys ensures exists i :: 0 <= i < |entries| && entries[i].path == p {
        if p == first {
          assert entries[0].path == p;
        } else {
          assert p in keys - {first};
          var i :| 0 <= i < |rest| && rest[i].path == p;
          assert entries[i + 1].path == p;
        }
      }
    }
  }

  /** A map can be enumerated from any of its paths on. */
  lemma {:induction false} EnumerateFrom(own: OwnershipMap, first: string) returns (entries: seq<Entry>)
    requires first in own
    ensures Lists(entries, own) && entries != [] && entries[0].path == first
  {
    var rest := Enumerate(own, own.Keys - {first});
    entries := [Entry(first, own[first].agent)] + rest;
    forall p | p in own ensures exists i :: 0 <= i < |entries| && entries[i].path == p {
      if p == first {
        assert entries[0].path == p;
      } else {
        assert p in own.Keys - {first};
        var i :| 0 <= i < |rest| && rest[i].path == p;
        assert entries[i + 1].path == p;
      }
    }
  }

  /** Two different claims of the same length that cover one file: only the root and a directory
      with a one-letter name can do that. */
  lemma {:induction false} EqualLengthCovers(p: string, q: string, file: string)
    requires Canonical(p) && Canonical(q) && Canonical(file)
    requires Covers(p, Segments(file)) && Covers(q, Segments(file)) && |p| == |q| && p != q
    ensures |p| == 1 && (p == "." || q == ".")
  {
    AppliesIsCovers(p, file);
    AppliesIsCovers(q, file);
    assert p == "." || p <= file;
    assert q == "." || q <= file;
  }

  /** A one-letter directory is the longest cover, next to a claim of the root by another agent. */
  ghost predicate RootTie(own: OwnershipMap, file: seq<string>) {
    && "." in own
    && exists d :: d in own && |d| == 1 && d != "." && LongestCover(own, d, file) && own[d].agent != own["."].agent
  }

  /** Some enumeration of the map makes the lookup give this answer. */
  ghost predicate CanAnswer(own: OwnershipMap, file: string, agent: Option<string>) {
    exists entries :: Lists(entries, own) && Answers(agent, entries, file)
  }

  /** The answers of a lookup are the agents of the longest covers, each for some enumeration. */
  lemma {:induction false} CanAnswerExactly(own: OwnershipMap, file: string, agent: string)
    requires CanonicalKeys(own) && Mentioned(file)
    ensures CanAnswer(own, file, Some(agent))
            <==> exists p :: LongestCover(own, p, FileOf(file)) && own[p].agent == agent
  {
    if CanAnswer(own, file, Some(agent)) {
      var entries :| Lists(entries, own) && Answers(Some(agent), entries, file);
      FindsLongestCover(own, entries, file, Some(agent));
    }
    if exists p :: LongestCover(own, p, FileOf(file)) && own[p].agent == agent {
      var p :| LongestCover(own, p, FileOf(file)) && own[p].agent == agent;
      var entries := EnumerateFrom(own, p);
      FirstIsBest(own, entries, file, p);
    }
  }

  lemma {:induction false} TwoAnswers(own: OwnershipMap, file: string, p: string, q: string)
    requires CanonicalKeys(own) && Mentioned(file)
    requires LongestCover(own, p, FileOf(file)) && LongestCover(own, q, FileOf(file)) && own[p].agent != own[q].agent
    ensures exists a, b :: a != b && CanAnswer(own, file, a) && CanAnswer(own, file, b)
  {
    CanAnswerExactly(own, file, own[p].agent);
    CanAnswerExactly(own, file, own[q].agent);
    assert CanAnswer(own, file, Some(own[p].agent)) && CanAnswer(own, file, Some(own[q].agent));
  }

  lemma {:induction false} TieHasTwoAnswers(own: OwnershipMap, file: string)
    requires CanonicalKeys(own) && Mentioned(file) && RootTie(own, FileOf(file))
    ensures exists a, b :: a != b && CanAnswer(own, file, a) && CanAnswer(own, file, b)
  {
    var d :| d in own && |d| == 1 && d != "." && LongestCover(own, d, FileOf(file))
             && own[d].agent != own["."].agent;
    var root := ".";
    assert LongestCover(own, root, FileOf(file));
    TwoAnswers(own, file, d, root);
  }

  /** Any two enumerations of the map give the same answer exactly when there is no such tie. */
  lemma {:induction false} OrderIndependentExactly(own: OwnershipMap, file: string)
    requires CanonicalKeys(own) && Mentioned(file)
    ensures (forall a, b | CanAnswer(own, file, a) && CanAnswer(own, file, b) :: a == b)
            <==> !RootTie(own, FileOf(file))
  {
    if RootTie(own, FileOf(file)) {
      TieHasTwoAnswers(own, file);
    } else {
      forall a, b | CanAnswer(own, file, a) && CanAnswer(own, file, b) ensures a == b {
        var one :| Lists(one, own) && Answers(a, one, file);
        var two :| Lists(two, own) && Answers(b, two, file);
        FindsLongestCover(own, one, file, a);
        FindsLongestCover(own, two, file, b);
        if a.Some? && b.Some? {
          var p :| LongestCover(own, p, FileOf(file)) && own[p].agent == a.value;
          var q :| LongestCover(own, q, FileOf(file)) && own[q].agent == b.value;
          OneLongestAgent(own, file, p, q);
        }
      }
    }
  }

  lemma {:induction false} OneLongestAgent(own: OwnershipMap, file: string, p: string, q: string)
    requires CanonicalKeys(own) && Mentioned(file) && !RootTie(own, FileOf(file))
    requires LongestCover(own, p, FileOf(file)) && LongestCover(own, q, FileOf(file))
    ensures own[p].agent == own[q].agent
  {
    if p != q {
      EqualLengthCovers(p, q, WithoutSlash(file));
    }
  }

  /** The tie happens: two enumerations of one map of shared claims name two owners of `x/f`. */
  lemma {:induction false} RootTieExample() returns (own: OwnershipMap, one: seq<Entry>, two: seq<Entry>)
    ensures CanonicalKeys(own) && Exclusion(own) && Canonical("x/f") && Lists(one, own) && Lists(two, own)
    ensures Answers(Some("a"), one, "x/f") && Answers(Some("b"), two, "x/f")
  {
    var root, dir, file := ".", "x", "x/f";
    assert root != dir;
    own := map[root := Claim.Claim("a", Mode.Shared, "i", 0), dir := Claim.Claim("b", Mode.Shared, "j", 1)];
    one := [Entry(root, "a"), Entry(dir, "b")];
    two := [Entry(dir, "b"), Entry(root, "a")];
    TwoNames(file, dir, "f");
    SplitPlain(dir, '/');
    assert one[0].path == root && one[1].path == dir && two[0].path == dir && two[1].path == root;
    assert forall p | p in own :: p == root || p == dir;
    BestOfTwo(one, file);
    BestOfTwo(two, file);
  }

  lemma {:induction false} BestOfTwo(entries: seq<Entry>, file: string)
    requires |entries| == 2 && |entries[0].path| == 1 == |entries[1].path|
    requires Applies(entries[0].path, file)
    ensures IsBest(entries, 0, file)
  {
  }

  // ---- Runs with exclusive claims only ----

  ghost predicate ExclusiveOnly(commands: seq<Command>) {
    AllCleanNames(commands) && forall c | c in commands && c.Claim? :: c.mode.Exclusive?
  }

  ghost predicate NoSharedEvents(log: seq<Event>) {
    forall e | e in log && e.body.Ownership? :: !e.body.mode.Shared?
  }

  lemma {:induction false} StepSharesNothing(s: State, c: Command)
    requires Sound(s.log) && NoSharedEvents(s.log) && CleanNames(c)
    requires c.Claim? ==> c.mode.Exclusive?
    ensures NoSharedEvents(Next(s, c, false).0.log)
  {
    if !c.Compact? && !c.Activate? && !c.Deactivate? && Decide(s, c).Ok? {
      AppendFacts(s, c);
      if c.Claim? || c.Release? { StoredPaths(s, c); }
    }
  }

  lemma {:induction false} RunSharesNothing(s: State, commands: seq<Command>)
    requires Sound(s.log) && NoSharedEvents(s.log) && ExclusiveOnly(commands)
    ensures NoSharedEvents(Run(s, commands, false).0.log)
    decreases |commands|
  {
    if commands != [] {
      var c := commands[0];
      assert c in commands;
      StepKeepsSound(s, c);
      StepSharesNothing(s, c);
      assert forall d | d in commands[1..] :: d in commands;
      RunSharesNothing(Next(s, c, false).0, commands[1..]);
    }
  }

  /** In every state that exclusive claims, releases and compactions reach, all claims that
      cover a file are one agent's. */
  lemma {:induction false} ExclusiveRunsHaveOneOwner(commands: seq<Command>, file: seq<string>)
    requires ExclusiveOnly(commands)
    ensures var own := FoldOwnership(Run(Start, commands, true).0.log);
            && own.Ok? && CanonicalKeys(own.value) && Exclusion(own.value)
            && (forall p | p in own.value :: !own.value[p].mode.Shared?)
            && (forall p, q | p in own.value && q in own.value && Covers(p, file) && Covers(q, file) ::
                  own.value[p].agent == own.value[q].agent)
  {
    StartStands();
    ExclusiveRunsAreClean(Start, commands);
    ExclusionWithCompaction(commands);
    CompactionIsInvisible(commands);
    RunKeepsSound(Start, commands);
    RunSharesNothing(Start, commands);
    var log := Run(Start, commands, false).0.log;
    var own := FoldOwnership(log).value;
    FoldMeaning(log);
    forall p | p in own ensures !own[p].mode.Shared? {
      assert Lookup(own, p) == OwnerAt(log, p);
      var b := OwnerSpokeLast(log, p);
    }
  }

  /** On the map of any such state, however it is enumerated, an answer is given exactly when some
      claim covers the file, and is the one agent whose claims cover it. */
  lemma {:induction false} AnswerIsTheOwner(commands: seq<Command>, own: OwnershipMap, entries: seq<Entry>,
                                            file: string, agent: Option<string>)
    requires ExclusiveOnly(commands) && FoldOwnership(Run(Start, commands, true).0.log) == Ok(own)
    requires Mentioned(file) && Lists(entries, own) && Answers(agent, entries, file)
    ensures CanonicalKeys(own)
    ensures agent.None? <==> forall p | p in own :: !Covers(p, FileOf(file))
    ensures forall p | p in own && Covers(p, FileOf(file)) :: agent == Some(own[p].agent)
  {
    ExclusiveRunsHaveOneOwner(commands, FileOf(file));
    FindsLongestCover(own, entries, file, agent);
  }

  /** findOwnerForPath, for the files and directories that a discussion mentions. */
  lemma {:induction false} PlanLookupAnswersTheOwner(commands: seq<Command>, own: OwnershipMap, entries: seq<Entry>,
                                                     file: string, agent: Option<string>)
    requires ExclusiveOnly(commands) && FoldOwnership(Run(Start, commands, true).0.log) == Ok(own)
    requires Mentioned(file) && Lists(entries, own)
    requires Answers(agent, Prepared(entries, AsItIs), AsItIs(file))
    ensures agent.None? <==> forall p | p in own :: !Covers(p, FileOf(file))
    ensures forall p | p in own && Covers(p, FileOf(file)) :: agent == Some(own[p].agent)
  {
    ExclusiveRunsHaveOneOwner(commands, FileOf(file));
    PreparedAsListed(own, entries);
    AnswerIsTheOwner(commands, own, entries, file, agent);
  }

  /** findOwner, for the source files of the project. */
  lemma {:induction false} ContractLookupAnswersTheOwner(commands: seq<Command>, own: OwnershipMap,
                                                         entries: seq<Entry>, file: string, agent: Option<string>)
    requires ExclusiveOnly(commands) && FoldOwnership(Run(Start, commands, true).0.log) == Ok(own)
    requires Canonical(file) && Lists(entries, own)
    requires Answers(agent, Prepared(entries, NormalizeProjectPath), NormalizeProjectPath(file))
    ensures agent.None? <==> forall p | p in own :: !Covers(p, Segments(file))
    ensures forall p | p in own && Covers(p, Segments(file)) :: agent == Some(own[p].agent)
  {
    ExclusiveRunsHaveOneOwner(commands, Segments(file));
    PreparedAsListed(own, entries);
    CanonicalIsFixed(file);
    CanonicalText(file);
    AnswerIsTheOwner(commands, own, entries, file, agent);
  }

  /** The lookup of contracts compares every spelling of a path as the claim path it stands for. */
  lemma {:induction false} SpellingsCompareAlike(file: string, stored: string)
    requires Trim(file) == file && NormalizeClaimPath(file) == Ok(stored) && stored != "."
    ensures WithoutSlash(NormalizeProjectPath(file)) == stored && Mentioned(NormalizeProjectPath(file))
  {
    NormalizedIsCanonical(file);
    FinishedAlike(PosixNormalize(ToSlashes(file)), stored);
  }

  lemma {:induction false} FinishedAlike(posix: string, stored: string)
    requires FinishClaimPath(posix) == Ok(stored) && stored != "."
    ensures WithoutSlash(if "./" <= posix then posix[2..] else posix) == stored
  {
  }

  /** So it answers the owner for a file however its path is spelled. */
  lemma {:induction false} ContractLookupBySpelling(commands: seq<Command>, own: OwnershipMap, entries: seq<Entry>,
                                                    file: string, stored: string, agent: Option<string>)
    requires ExclusiveOnly(commands) && FoldOwnership(Run(Start, commands, true).0.log) == Ok(own)
    requires Trim(file) == file && NormalizeClaimPath(file) == Ok(stored) && stored != "." && Lists(entries, own)
    requires Answers(agent, Prepared(entries, NormalizeProjectPath), NormalizeProjectPath(file))
    ensures agent.None? <==> forall p | p in own :: !Covers(p, Segments(stored))
    ensures forall p | p in own && Covers(p, Segments(stored)) :: agent == Some(own[p].agent)
  {
    SpellingsCompareAlike(file, stored);
    ExclusiveRunsHaveOneOwner(commands, Segments(stored));
    PreparedAsListed(own, entries);
    AnswerIsTheOwner(commands, own, entries, NormalizeProjectPath(file), agent);
  }
}
