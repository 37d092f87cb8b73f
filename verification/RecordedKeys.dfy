/** Keys of the claims that the log can hold, with trimmed names and paths in normal form, and which
    of them are the key of another such claim about something else as well. */
module RecordedKeys {
  import opened Wrappers
  import opened Strings
  import opened Paths
  import opened Events
  import opened StateKeys
  import opened Ownership
  import opened Coordination
  import opened FailingRuns
  import opened DriftingClaims

  /** Some append records this event. */
  ghost predicate Recordable(e: Event) {
    exists s, id, now, from, to, body :: AppendLocked(s, id, now, from, to, body) == Ok(e)
  }

  predicate AgentName(agent: string) {
    Trimmed(agent) && 1 <= |agent| <= 128
  }

  predicate NormalForms(paths: seq<string>) {
    paths != [] && forall i | 0 <= i < |paths| :: Canonical(paths[i])
  }

  lemma {:induction false} AskedAreNormal(paths: seq<string>)
    requires paths != [] && forall p | p in paths :: Asked(p)
    ensures NormalForms(paths)
  {
    forall i | 0 <= i < |paths| ensures Canonical(paths[i]) {
      assert paths[i] in paths;
      var path :| SizedPath(path) && NormalizeClaimPath(path) == Ok(paths[i]);
      NormalizedIsCanonical(path);
    }
  }

  lemma {:induction false} CheckedShape(body: Body)
    requires CheckedBody(body).Ok? && CheckedBody(body).value.Ownership?
    ensures NormalForms(CheckedBody(body).value.paths)
  {
    CheckedIsAsked(body);
    OwnershipBody(body.paths, body.mode);
    NormalizeAllPointwise(body.paths);
    AskedAreNormal(CheckedBody(body).value.paths);
  }

  lemma {:induction false} RecordedShape(e: Event)
    requires Recordable(e) && e.body.Ownership?
    ensures AgentName(e.from) && NormalForms(e.body.paths)
  {
    var s, id, now, from, to, body :| AppendLocked(s, id, now, from, to, body) == Ok(e);
    TrimIsTrimmed(from);
    CheckedShape(body);
  }

  // ---- Recording a given claim ----

  /** A spelling of a normal form that no trimming touches. */
  function Spelling(path: string): string {
    "./" + path + "/."
  }

  lemma {:induction false} WalkDots(names: seq<string>)
    requires forall i | 0 <= i < |names| :: IsName(names[i]) || names[i] == "."
    ensures Walk(["."] + names + ["."], true) == Walk(["."] + names, true)
  {
    var whole := ["."] + names + ["."];
    assert whole[..|whole| - 1] == ["."] + names;
  }

  lemma {:induction false} SpelledParts(path: string)
    requires Canonical(path)
    ensures Split(Spelling(path), '/') == ["."] + Split(path, '/') + ["."]
  {
    SplitPlain(".", '/');
    SplitAppend(".", path + ['/'] + ".", '/');
    SplitAppend(path, ".", '/');
    assert Spelling(path) == "." + ['/'] + (path + ['/'] + ".");
  }

  lemma {:induction false} WalkOfSpelling(path: string)
    requires Canonical(path)
    ensures Render(Walk(["."] + Split(path, '/') + ["."], true)) == path
    ensures var walked := Walk(["."] + Split(path, '/') + ["."], true); walked != [] ==> walked[0] != ".."
  {
    if path == "." { SplitPlain(".", '/'); }
    WalkDots(Split(path, '/'));
    if path == "." {
      WalkAfterDot([]);
      assert ["."] + ["."] == [".", "."] && [".", "."][..1] == ["."] && ["."] + [] == ["."];
    } else {
      WalkAfterDot(Split(path, '/'));
      JoinSplit(path, '/');
      assert IsName(Split(path, '/')[0]);
    }
  }

  lemma {:induction false} SpellingNormalizes(path: string)
    requires Canonical(path)
    ensures NormalizeClaimPath(Spelling(path)) == Ok(path) && Trim(Spelling(path)) == Spelling(path)
  {
    var spelled := Spelling(path);
    CanonicalHasNoBackslash(path);
    assert spelled[0] == '.' && spelled[|spelled| - 1] == '.';
    TrimmedStays(spelled);
    assert ToSlashes(spelled) == spelled;
    SpelledParts(path);
    WalkOfSpelling(path);
    NormalizeMeaning(spelled);
  }

  function Spellings(paths: seq<string>): (raw: seq<string>)
    ensures |raw| == |paths| && forall i | 0 <= i < |paths| :: raw[i] == Spelling(paths[i])
  {
    seq(|paths|, i requires 0 <= i < |paths| => Spelling(paths[i]))
  }

  lemma {:induction false} SpellingsNormalize(paths: seq<string>)
    requires NormalForms(paths)
    ensures NormalizeAll(Spellings(paths)) == Ok(paths)
    ensures forall p | p in Spellings(paths) :: exists i :: 0 <= i < |paths| && p == Spelling(paths[i]) && Trim(p) == p
  {
    var raw := Spellings(paths);
    forall i | 0 <= i < |paths| ensures NormalizeClaimPath(raw[i]) == Ok(paths[i]) && Trim(raw[i]) == raw[i] {
      SpellingNormalizes(paths[i]);
    }
    NormalizeAllPointwise(raw);
    assert NormalizeAll(raw).value == paths;
  }

  function ClaimEvent(agent: string, paths: seq<string>): Event {
    Event(0, "", agent, "*", 0, Ownership(paths, Exclusive))
  }

  lemma {:induction false} SpellingsAreChecked(paths: seq<string>)
    requires NormalForms(paths) && |paths| <= 256
    requires forall i | 0 <= i < |paths| :: |paths[i]| <= 1020
    ensures CheckedBody(Ownership(Spellings(paths), Exclusive)) == Ok(Ownership(paths, Exclusive))
  {
    SpellingsNormalize(paths);
    NormalizeAllTrimmed(Spellings(paths));
  }

  lemma {:induction false} RecordsChecked(agent: string, body: Body, paths: seq<string>)
    requires AgentName(agent) && CheckedBody(body) == Ok(Ownership(paths, Exclusive))
    ensures AppendLocked(State([], false), "", 0, agent, "*", body) == Ok(ClaimEvent(agent, paths))
  {
    TrimmedStays(agent);
    assert ValidName("*") && Trim("*") == "*";
  }

  /** Every such claim within the limits can be recorded. */
  lemma {:induction false} CanRecord(agent: string, paths: seq<string>)
    requires AgentName(agent) && NormalForms(paths) && |paths| <= 256
    requires forall i | 0 <= i < |paths| :: |paths[i]| <= 1020
    ensures Recordable(ClaimEvent(agent, paths))
  {
    SpellingsAreChecked(paths);
    RecordsChecked(agent, Ownership(Spellings(paths), Exclusive), paths);
  }

  // ---- Joining normal forms ----

  /** Two normal forms with a comma between them are one. */
  lemma {:induction false} CommaKeepsNormal(x: string, y: string)
    requires Canonical(x) && Canonical(y)
    ensures Canonical(x + [','] + y)
  {
    var whole := x + [','] + y;
    var xs, ys := Split(x, '/'), Split(y, '/');
    var left := Split(x + [','], '/');
    SplitConcat(x, [','], '/');
    SplitPlain([','], '/');
    SplitConcat(x + [','], y, '/');
    assert left == xs[..|xs| - 1] + [xs[|xs| - 1] + [',']];
    SplitPlain(".", '/');
    assert ',' in xs[|xs| - 1] + [','] + ys[0];
    forall i | 0 <= i < |Split(whole, '/')| ensures IsName(Split(whole, '/')[i]) {
    }
  }

  lemma {:induction false} JoinKeepsNormal(paths: seq<string>)
    requires NormalForms(paths)
    ensures Canonical(Join(paths, ','))
  {
    if |paths| > 1 {
      JoinKeepsNormal(paths[1..]);
      CommaKeepsNormal(paths[0], Join(paths[1..], ','));
    }
  }

  lemma {:induction false} SortKeepsNormal(paths: seq<string>)
    requires NormalForms(paths)
    ensures NormalForms(SortStrings(paths)) && |SortStrings(paths)| == |paths|
  {
    var sorted := SortStrings(paths);
    SortKeepsMultiset(paths);
    assert |multiset(sorted)| == |sorted| && |multiset(paths)| == |paths|;
    forall i | 0 <= i < |sorted| ensures Canonical(sorted[i]) {
      assert sorted[i] in multiset(paths);
    }
  }

  // ---- The exact condition ----

  /** Another claim that the log can hold has the key of this one. */
  ghost predicate SharesKey(e: Event) {
    exists f: Event ::
      Recordable(f) && f.body.Ownership? && StateKey(f) == StateKey(e) && SubjectOf(f) != SubjectOf(e)
  }

  /** The text is cut at another colon into an agent's name and a path. */
  ghost predicate AgentCut(agent: string, text: string) {
    exists i | 0 <= i < |text| ::
      text[i] == ':' && i != |agent| && AgentName(text[..i]) && Canonical(text[i + 1..])
  }

  /** The path is cut at a comma into two in ascending order. */
  ghost predicate PathCut(path: string) {
    exists i | 0 <= i < |path| ::
      path[i] == ',' && StringLe(path[..i], path[i + 1..]) && Canonical(path[..i]) && Canonical(path[i + 1..])
  }

  lemma {:induction false} OnePath(e: Event, path: string)
    requires e.body.Ownership? && e.body.paths == [path]
    ensures SortStrings(e.body.paths) == [path] && ClaimText(e) == e.from + ":" + path
  {
    assert e.body.paths[1..] == [];
  }

  lemma {:induction false} PrefixIsLe(x: string, rest: string)
    ensures StringLe(x, x + rest)
  {
    if x != "" {
      assert (x + rest)[1..] == x[1..] + rest;
      PrefixIsLe(x[1..], rest);
    }
  }

  /** A join of several normal forms in order can be cut in two that are in order. */
  lemma {:induction false} SortedJoinCuts(parts: seq<string>)
    requires |parts| > 1 && Sorted(parts) && NormalForms(parts)
    ensures PathCut(Join(parts, ','))
  {
    var text, rest := Join(parts, ','), Join(parts[1..], ',');
    var i := |parts[0]|;
    assert text == parts[0] + [','] + rest;
    assert text[i] == ',' && text[..i] == parts[0] && text[i + 1..] == rest;
    assert parts[1..][0] == parts[1] && StringLe(parts[0], parts[1]);
    var tail := if |parts| == 2 then "" else [','] + Join(parts[1..][1..], ',');
    assert rest == parts[1] + tail;
    PrefixIsLe(parts[1], tail);
    LeTransitive(parts[0], parts[1], rest);
    JoinKeepsNormal(parts[1..]);
  }

  lemma {:induction false} PairInOrder(x: string, y: string)
    requires StringLe(x, y)
    ensures SortStrings([x, y]) == [x, y] && Join([x, y], ',') == x + [','] + y
  {
    assert [x, y][1..] == [y] && [y][1..] == [];
    assert SortStrings([y]) == [y];
  }

  lemma {:induction false} PartnerShares(e: Event, agent: string, paths: seq<string>)
    requires e.body.Ownership? && ClaimText(e) == agent + ":" + Join(SortStrings(paths), ',')
    requires AgentName(agent) && NormalForms(paths) && |paths| <= 256
    requires forall i | 0 <= i < |paths| :: |paths[i]| <= 1020
    requires agent != e.from || |paths| != |e.body.paths|
    ensures SharesKey(e)
  {
    var f := ClaimEvent(agent, paths);
    CanRecord(agent, paths);
    SameText(e, f);
    assert |multiset(paths)| == |paths| && |multiset(e.body.paths)| == |e.body.paths|;
  }

  lemma {:induction false} ManyShare(e: Event)
    requires Recordable(e) && e.body.Ownership? && |e.body.paths| > 1 && |ClaimText(e)| <= 1020
    ensures SharesKey(e)
  {
    var whole := Join(SortStrings(e.body.paths), ',');
    RecordedShape(e);
    SortKeepsNormal(e.body.paths);
    JoinKeepsNormal(SortStrings(e.body.paths));
    OnePath(ClaimEvent(e.from, [whole]), whole);
    PartnerShares(e, e.from, [whole]);
  }

  lemma {:induction false} OtherNameShares(e: Event, agent: string, rest: string)
    requires e.body.Ownership? && ClaimText(e) == agent + ":" + rest && agent != e.from
    requires AgentName(agent) && Canonical(rest) && |rest| <= 1020
    ensures SharesKey(e)
  {
    OnePath(ClaimEvent(agent, [rest]), rest);
    PartnerShares(e, agent, [rest]);
  }

  lemma {:induction false} AgentCutShares(e: Event)
    requires e.body.Ownership? && |ClaimText(e)| <= 1020 && AgentCut(e.from, ClaimText(e))
    ensures SharesKey(e)
  {
    var text := ClaimText(e);
    var i :| 0 <= i < |text| && text[i] == ':' && i != |e.from| && AgentName(text[..i]) && Canonical(text[i + 1..]);
    CutAt(text, i);
    OtherNameShares(e, text[..i], text[i + 1..]);
  }

  lemma {:induction false} CutAt(text: string, i: nat)
    requires i < |text|
    ensures text == text[..i] + [text[i]] + text[i + 1..]
  {
  }

  lemma {:induction false} TwoPathsShare(e: Event, x: string, y: string)
    requires e.body.Ownership? && e.body.paths == [x + [','] + y] && StringLe(x, y)
    requires AgentName(e.from) && Canonical(x) && Canonical(y) && |x| <= 1020 && |y| <= 1020
    ensures SharesKey(e)
  {
    OnePath(e, x + [','] + y);
    PairInOrder(x, y);
    PartnerShares(e, e.from, [x, y]);
  }

  lemma {:induction false} PathCutShares(e: Event, path: string)
    requires e.body.Ownership? && AgentName(e.from) && |path| <= 1020 && e.body.paths == [path] && PathCut(path)
    ensures SharesKey(e)
  {
    var i :| 0 <= i < |path| && path[i] == ',' && StringLe(path[..i], path[i + 1..])
             && Canonical(path[..i]) && Canonical(path[i + 1..]);
    CutAt(path, i);
    TwoPathsShare(e, path[..i], path[i + 1..]);
  }

  lemma {:induction false} SamePrefix(a: string, x: string, b: string, y: string)
    requires a + ":" + x == b + ":" + y && |a| == |b|
    ensures a == b
  {
    assert a == (a + ":" + x)[..|a|] && b == (b + ":" + y)[..|b|];
  }

  lemma {:induction false} CutsThere(agent: string, text: string, name: string, rest: string)
    requires text == name + ":" + rest && |name| != |agent| && AgentName(name) && Canonical(rest)
    ensures AgentCut(agent, text)
  {
    var i := |name|;
    assert text[i] == ':' && text[..i] == name && text[i + 1..] == rest;
  }

  lemma {:induction false} OtherAgentCuts(e: Event, f: Event)
    requires e.body.Ownership? && Recordable(f) && f.body.Ownership? && StateKey(f) == StateKey(e) && f.from != e.from
    ensures AgentCut(e.from, ClaimText(e))
  {
    var own, rest := Join(SortStrings(e.body.paths), ','), Join(SortStrings(f.body.paths), ',');
    SameText(e, f);
    RecordedShape(f);
    SortKeepsNormal(f.body.paths);
    JoinKeepsNormal(SortStrings(f.body.paths));
    if |f.from| == |e.from| { SamePrefix(f.from, rest, e.from, own); }
    CutsThere(e.from, ClaimText(e), f.from, rest);
  }

  lemma {:induction false} SameJoin(e: Event, path: string, f: Event)
    requires e.body.Ownership? && e.body.paths == [path] && f.body.Ownership?
    requires StateKey(f) == StateKey(e) && f.from == e.from
    ensures Join(SortStrings(f.body.paths), ',') == path
  {
    OnePath(e, path);
    SameText(e, f);
    assert ClaimText(e)[|e.from| + 1..] == path;
    assert ClaimText(f)[|e.from| + 1..] == Join(SortStrings(f.body.paths), ',');
  }

  lemma {:induction false} OneOtherPath(e: Event, path: string, f: Event)
    requires e.body.Ownership? && e.body.paths == [path] && f.body.Ownership? && |f.body.paths| == 1
    requires StateKey(f) == StateKey(e) && f.from == e.from
    ensures SubjectOf(f) == SubjectOf(e)
  {
    SameJoin(e, path, f);
    var other := f.body.paths[0];
    assert f.body.paths == [other];
    OnePath(f, other);
  }

  lemma {:induction false} OtherPathsCut(e: Event, path: string, f: Event)
    requires e.body.Ownership? && e.body.paths == [path] && Recordable(f) && f.body.Ownership?
    requires StateKey(f) == StateKey(e) && f.from == e.from && |f.body.paths| > 1
    ensures PathCut(path)
  {
    SameJoin(e, path, f);
    RecordedShape(f);
    SortKeepsNormal(f.body.paths);
    SortIsSorted(f.body.paths);
    SortedJoinCuts(SortStrings(f.body.paths));
  }

  lemma {:induction false} PartnerCuts(e: Event, path: string, f: Event)
    requires e.body.Ownership? && e.body.paths == [path] && Recordable(f) && f.body.Ownership?
    requires StateKey(f) == StateKey(e) && SubjectOf(f) != SubjectOf(e)
    ensures AgentCut(e.from, ClaimText(e)) || PathCut(path)
  {
    RecordedShape(f);
    if f.from != e.from {
      OtherAgentCuts(e, f);
    } else if |f.body.paths| == 1 {
      OneOtherPath(e, path, f);
    } else {
      OtherPathsCut(e, path, f);
    }
  }

  /** The key of the claim reads in another way too. */
  ghost predicate Ambiguous(e: Event)
    requires e.body.Ownership? && e.body.paths != []
  {
    |e.body.paths| > 1 || AgentCut(e.from, ClaimText(e)) || PathCut(e.body.paths[0])
  }

  /** A recorded claim has its key in common with another only if it has several paths, or its text
      can be cut at another colon into a name and a path, or its path at a comma into two in ascending
      order; and if the text leaves room for a spelling of the parts, exactly then. */
  lemma {:induction false} SharesKeyExactly(e: Event)
    requires Recordable(e) && e.body.Ownership?
    ensures e.body.paths != [] && (SharesKey(e) ==> Ambiguous(e))
    ensures |ClaimText(e)| <= 1020 ==> (SharesKey(e) <==> Ambiguous(e))
  {
    RecordedShape(e);
    if |e.body.paths| == 1 && SharesKey(e) {
      var f: Event :| Recordable(f) && f.body.Ownership? && StateKey(f) == StateKey(e) && SubjectOf(f) != SubjectOf(e);
      PartnerCuts(e, e.body.paths[0], f);
    }
    if |ClaimText(e)| <= 1020 && Ambiguous(e) { AmbiguousShares(e); }
  }

  lemma {:induction false} AmbiguousShares(e: Event)
    requires Recordable(e) && e.body.Ownership? && e.body.paths != [] && |ClaimText(e)| <= 1020 && Ambiguous(e)
    ensures SharesKey(e)
  {
    RecordedShape(e);
    if |e.body.paths| > 1 {
      ManyShare(e);
    } else if AgentCut(e.from, ClaimText(e)) {
      AgentCutShares(e);
    } else {
      OnePath(e, e.body.paths[0]);
      PathCutShares(e, e.body.paths[0]);
    }
  }
}
