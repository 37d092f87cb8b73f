/** The key under which compaction keeps the latest event: a string built from the
    payload, and when two of those strings mean the same state. */
module StateKeys {
  import opened Wrappers
  import opened Strings
  import opened Events

  /** The order of Array.prototype.sort on strings. */
  predicate StringLe(a: string, b: string) {
    a == "" || (b != "" && (a[0] < b[0] || (a[0] == b[0] && StringLe(a[1..], b[1..]))))
  }

  function InsertString(x: string, sorted: seq<string>): seq<string> {
    if sorted == [] || StringLe(x, sorted[0]) then [x] + sorted
    else [sorted[0]] + InsertString(x, sorted[1..])
  }

  function SortStrings(xs: seq<string>): seq<string> {
    if xs == [] then [] else InsertString(xs[0], SortStrings(xs[1..]))
  }

  function StateKey(e: Event): Option<string> {
    match e.body
    case Ownership(paths, _) => Some("ownership:" + e.from + ":" + Join(SortStrings(paths), ','))
    case Contract(name, _, _) => Some("contract:" + name)
    case Decision(title) => Some("decision:" + title)
    case _ => None
  }

  /** The names under which keys cannot run into each other: no colon in the agent of an
      ownership event, no comma in its paths. */
  predicate KeySafe(e: Event) {
    e.body.Ownership? ==>
      && ':' !in e.from
      && e.body.paths != []
      && forall i | 0 <= i < |e.body.paths| :: ',' !in e.body.paths[i]
  }

  /** The state an event speaks about: agent and paths whatever their order, contract name,
      or decision title. */
  datatype Subject =
    | OwnershipOf(agent: string, paths: multiset<string>)
    | ContractNamed(name: string)
    | DecisionTitled(title: string)
    | Nothing

  ghost function SubjectOf(e: Event): Subject {
    match e.body
    case Ownership(paths, _) => OwnershipOf(e.from, multiset(paths))
    case Contract(name, _, _) => ContractNamed(name)
    case Decision(title) => DecisionTitled(title)
    case _ => Nothing
  }

  lemma {:induction false} InsertKeepsMultiset(x: string, sorted: seq<string>)
    ensures multiset(InsertString(x, sorted)) == multiset{x} + multiset(sorted)
  {
    if sorted != [] {
      assert sorted == [sorted[0]] + sorted[1..];
      if !StringLe(x, sorted[0]) {
        InsertKeepsMultiset(x, sorted[1..]);
      }
    }
  }

  lemma {:induction false} SortKeepsMultiset(xs: seq<string>)
    ensures multiset(SortStrings(xs)) == multiset(xs)
  {
    if xs != [] {
      SortKeepsMultiset(xs[1..]);
      InsertKeepsMultiset(xs[0], SortStrings(xs[1..]));
      assert xs == [xs[0]] + xs[1..];
    }
  }

  lemma {:induction false} LeTotal(a: string, b: string)
    ensures StringLe(a, b) || StringLe(b, a)
    ensures StringLe(a, b) && StringLe(b, a) ==> a == b
  {
    if a != "" && b != "" {
      LeTotal(a[1..], b[1..]);
      assert a == [a[0]] + a[1..] && b == [b[0]] + b[1..];
    }
  }

  lemma {:induction false} LeTransitive(a: string, b: string, c: string)
    requires StringLe(a, b) && StringLe(b, c)
    ensures StringLe(a, c)
  {
    if a != "" && a[0] == b[0] == c[0] {
      LeTransitive(a[1..], b[1..], c[1..]);
    }
  }

  ghost predicate Sorted(xs: seq<string>) {
    forall i, j | 0 <= i <= j < |xs| :: StringLe(xs[i], xs[j])
  }

  lemma {:induction false} InsertKeepsSorted(x: string, sorted: seq<string>)
    requires Sorted(sorted)
    ensures Sorted(InsertString(x, sorted))
  {
    LeTotal(x, x);
    if sorted == [] {
    } else if StringLe(x, sorted[0]) {
      forall j | 0 <= j < |sorted| ensures StringLe(x, sorted[j]) {
        LeTransitive(x, sorted[0], sorted[j]);
      }
    } else {
      LeTotal(x, sorted[0]);
      InsertKeepsSorted(x, sorted[1..]);
      InsertKeepsMultiset(x, sorted[1..]);
      var rest := InsertString(x, sorted[1..]);
      forall j | 0 <= j < |rest| ensures StringLe(sorted[0], rest[j]) {
        assert rest[j] in multiset(rest);
      }
      LeTotal(sorted[0], sorted[0]);
    }
  }

  lemma {:induction false} SortIsSorted(xs: seq<string>)
    ensures Sorted(SortStrings(xs))
  {
    if xs != [] {
      SortIsSorted(xs[1..]);
      InsertKeepsSorted(xs[0], SortStrings(xs[1..]));
    }
  }

  lemma {:induction false} SortedUnique(a: seq<string>, b: seq<string>)
    requires Sorted(a) && Sorted(b) && multiset(a) == multiset(b)
    ensures a == b
  {
    if a == [] {
      assert |multiset(b)| == |b|;
    } else {
      assert a[0] in multiset(a);
      assert b != [];
      assert b[0] in multiset(a) && a[0] in multiset(b);
      LeTotal(a[0], b[0]);
      assert a == [a[0]] + a[1..] && b == [b[0]] + b[1..];
      assert multiset(a[1..]) == multiset(a) - multiset{a[0]};
      assert multiset(b[1..]) == multiset(b) - multiset{b[0]};
      SortedUnique(a[1..], b[1..]);
    }
  }

  /** The key of a contract or a decision is that of no other state, whatever the names of claims. */
  lemma {:induction false} OwnKeyExactly(a: Event, b: Event)
    requires b.body.Contract? || b.body.Decision?
    ensures StateKey(a) == StateKey(b) <==> SubjectOf(a) == SubjectOf(b)
  {
    if StateKey(a).Some? {
      var ka, kb := StateKey(a).value, StateKey(b).value;
      assert a.body.Ownership? ==> ka[0] == 'o';
      assert a.body.Contract? ==> ka[0] == 'c' && ka[9..] == a.body.name;
      assert a.body.Decision? ==> ka[0] == 'd' && ka[9..] == a.body.title;
      assert b.body.Contract? ==> kb[0] == 'c' && kb[9..] == b.body.name;
      assert b.body.Decision? ==> kb[0] == 'd' && kb[9..] == b.body.title;
    }
  }

  /** Key strings agree exactly on events about the same state, when names are safe. */
  lemma {:induction false} SameKeyExactly(a: Event, b: Event)
    requires KeySafe(a) && KeySafe(b)
    requires StateKey(a).Some? || StateKey(b).Some?
    ensures StateKey(a) == StateKey(b) <==> SubjectOf(a) == SubjectOf(b)
  {
    if a.body.Ownership? && b.body.Ownership? {
      var sa, sb := SortStrings(a.body.paths), SortStrings(b.body.paths);
      SortKeepsMultiset(a.body.paths);
      SortKeepsMultiset(b.body.paths);
      if StateKey(a) == StateKey(b) {
        var ka, kb := a.from + ":" + Join(sa, ','), b.from + ":" + Join(sb, ',');
        assert StateKey(a).value == "ownership:" + ka && StateKey(b).value == "ownership:" + kb;
        assert ka == StateKey(a).value[10..] && kb == StateKey(b).value[10..];
        FirstColon(a.from, Join(sa, ','), b.from, Join(sb, ','));
        SplitSorted(a.body.paths);
        SplitSorted(b.body.paths);
        assert sa == sb;
      } else if SubjectOf(a) == SubjectOf(b) {
        SortIsSorted(a.body.paths);
        SortIsSorted(b.body.paths);
        SortedUnique(sa, sb);
        assert false;
      }
    } else if a.body.Ownership? {
      if StateKey(b).Some? { OwnKeyExactly(a, b); }
    } else {
      if StateKey(a).Some? { OwnKeyExactly(b, a); }
    }
  }

  lemma {:induction false} SplitSorted(paths: seq<string>)
    requires paths != [] && forall i | 0 <= i < |paths| :: ',' !in paths[i]
    ensures Split(Join(SortStrings(paths), ','), ',') == SortStrings(paths)
  {
    var sorted := SortStrings(paths);
    SortKeepsMultiset(paths);
    assert paths[0] in multiset(sorted);
    forall i | 0 <= i < |sorted| ensures ',' !in sorted[i] {
      assert sorted[i] in multiset(paths);
    }
    SplitJoin(sorted, ',');
  }

  lemma {:induction false} FirstColon(a: string, x: string, b: string, y: string)
    requires ':' !in a && ':' !in b && a + ":" + x == b + ":" + y
    ensures a == b && x == y
  {
    var left, right := a + ":" + x, b + ":" + y;
    FirstPiece(left, a, ':');
    FirstPiece(right, b, ':');
    assert left[|a| + 1..] == x && right[|b| + 1..] == y;
  }

  /** With a comma in a path the keys of different claims collide, so compaction takes the
      later one for a replacement of the earlier. */
  lemma {:induction false} CommaCollides(seqNo: nat, id: string, agent: string)
    ensures var whole := Event(seqNo, id, agent, "*", 0, Ownership(["a,b"], Exclusive));
            var parts := Event(seqNo + 1, id, agent, "*", 0, Ownership(["a", "b"], Release));
            StateKey(whole) == StateKey(parts) && SubjectOf(whole) != SubjectOf(parts)
  {
    assert StringLe("a", "b");
    assert SortStrings(["b"]) == ["b"] by { assert ["b"][1..] == []; }
    assert SortStrings(["a", "b"]) == ["a", "b"] by { assert ["a", "b"][1..] == ["b"]; }
    assert SortStrings(["a,b"]) == ["a,b"] by { assert ["a,b"][1..] == []; }
    assert Join(["a", "b"], ',') == "a,b" by { assert ["a", "b"][1..] == ["b"]; }
    assert multiset(["a,b"])["a"] == 0 && multiset(["a", "b"])["a"] == 1;
  }

  /** The same with a colon in the name of an agent. */
  lemma {:induction false} ColonCollides(seqNo: nat, id: string)
    ensures var whole := Event(seqNo, id, "a:src", "*", 0, Ownership(["x"], Exclusive));
            var parts := Event(seqNo + 1, id, "a", "*", 0, Ownership(["src:x"], Exclusive));
            StateKey(whole) == StateKey(parts) && SubjectOf(whole) != SubjectOf(parts)
  {
    assert SortStrings(["x"]) == ["x"] by { assert ["x"][1..] == []; }
    assert SortStrings(["src:x"]) == ["src:x"] by { assert ["src:x"][1..] == []; }
    assert "ownership:" + "a:src" + ":" + "x" == "ownership:" + "a" + ":" + "src:x";
  }

  /** What the key of an ownership event says after its prefix. */
  function ClaimText(e: Event): string
    requires e.body.Ownership?
  {
    e.from + ":" + Join(SortStrings(e.body.paths), ',')
  }

  function Agent(text: string): string {
    Split(text, ':')[0]
  }

  function AfterColon(text: string): string {
    if |Agent(text)| < |text| then text[|Agent(text)| + 1..] else ""
  }

  /** The paths that a reader takes the key for: split at commas after the first colon. */
  function ReadPaths(e: Event): seq<string>
    requires e.body.Ownership?
  {
    Split(AfterColon(ClaimText(e)), ',')
  }

  lemma {:induction false} ReadsBack(agent: string, rest: string, text: string)
    requires text == agent + ":" + rest
    ensures text == Agent(text) + ":" + AfterColon(text)
    ensures ':' !in agent ==> Agent(text) == agent && AfterColon(text) == rest
  {
    var first := Agent(text);
    FirstPiece(text, first, ':');
    assert text[|agent|] == ':';
    assert first != text;
    assert text == first + ":" + text[|first| + 1..];
    if ':' !in agent {
      FirstPiece(text, agent, ':');
    }
  }

  lemma {:induction false} SameText(e: Event, f: Event)
    requires e.body.Ownership? && f.body.Ownership?
    ensures StateKey(e) == StateKey(f) <==> ClaimText(e) == ClaimText(f)
  {
    var te, tf := ClaimText(e), ClaimText(f);
    assert StateKey(e).value == "ownership:" + te && StateKey(f).value == "ownership:" + tf;
    assert te == StateKey(e).value[10..] && tf == StateKey(f).value[10..];
  }

  /** A safe claim is what its key reads as. */
  lemma {:induction false} SafeReads(f: Event)
    requires f.body.Ownership? && KeySafe(f)
    ensures Agent(ClaimText(f)) == f.from && ReadPaths(f) == SortStrings(f.body.paths) && Sorted(ReadPaths(f))
  {
    ReadsBack(f.from, Join(SortStrings(f.body.paths), ','), ClaimText(f));
    SplitSorted(f.body.paths);
    SortIsSorted(f.body.paths);
  }

  /** The safe claim that the key of e reads as, if its paths come out in ascending order. */
  lemma {:induction false} ReadAs(e: Event) returns (f: Event)
    requires e.body.Ownership? && Sorted(ReadPaths(e))
    ensures f.body.Ownership? && KeySafe(f) && StateKey(f) == StateKey(e)
    ensures f.from == Agent(ClaimText(e)) && f.body.paths == ReadPaths(e)
  {
    var text, paths := ClaimText(e), ReadPaths(e);
    f := Event(0, "", Agent(text), "*", 0, Ownership(paths, e.body.mode));
    SortIsSorted(paths);
    SortKeepsMultiset(paths);
    SortedUnique(SortStrings(paths), paths);
    JoinSplit(AfterColon(text), ',');
    ReadsBack(e.from, Join(SortStrings(e.body.paths), ','), text);
    SameText(e, f);
  }

  lemma {:induction false} SamePathsSafe(e: Event, f: Event)
    requires e.body.Ownership? && f.body.Ownership? && KeySafe(f) && SubjectOf(e) == SubjectOf(f)
    ensures KeySafe(e)
  {
    assert multiset(e.body.paths) == multiset(f.body.paths) && e.from == f.from;
    assert f.body.paths[0] in multiset(e.body.paths);
    forall i | 0 <= i < |e.body.paths| ensures ',' !in e.body.paths[i] {
      assert e.body.paths[i] in multiset(f.body.paths);
    }
  }

  /** Another claim, a safe one about something else, has the key of this one. */
  ghost predicate Collides(e: Event) {
    exists f: Event :: f.body.Ownership? && KeySafe(f) && StateKey(f) == StateKey(e) && SubjectOf(f) != SubjectOf(e)
  }

  /** That happens exactly to the claims with unsafe names whose key reads as a list of paths in
      ascending order. */
  lemma {:induction false} CollidesExactly(e: Event)
    requires e.body.Ownership?
    ensures Collides(e) <==> !KeySafe(e) && Sorted(ReadPaths(e))
  {
    if Collides(e) {
      var f: Event :| f.body.Ownership? && KeySafe(f) && StateKey(f) == StateKey(e) && SubjectOf(f) != SubjectOf(e);
      if KeySafe(e) { SameKeyExactly(e, f); }
      SameText(e, f);
      SafeReads(f);
    }
    if !KeySafe(e) && Sorted(ReadPaths(e)) {
      var f := ReadAs(e);
      if SubjectOf(f) == SubjectOf(e) { SamePathsSafe(e, f); }
    }
  }

  /** One path is always in order: a colon in an agent's name makes its claims of one path without
      a comma collide, whatever they are. */
  lemma {:induction false} ColonAlwaysCollides(e: Event)
    requires e.body.Ownership? && |e.body.paths| == 1 && ',' !in e.body.paths[0]
    requires ':' in e.from && ',' !in e.from
    ensures Collides(e)
  {
    var path := e.body.paths[0];
    var rest := AfterColon(ClaimText(e));
    assert e.body.paths[1..] == [] && SortStrings(e.body.paths) == [path];
    ReadsBack(e.from, Join(SortStrings(e.body.paths), ','), ClaimText(e));
    assert ',' !in rest;
    SplitPlain(rest, ',');
    LeTotal(rest, rest);
    CollidesExactly(e);
  }

  /** A text with one separator is cut there. */
  lemma {:induction false} OneCut(a: string, r: string, b: string, s: string, sep: char)
    requires a + [sep] + r == b + [sep] + s && sep !in b && sep !in s
    ensures a == b && r == s
  {
    var text := b + [sep] + s;
    assert text == a + [sep] + r && text[|a|] == sep;
    assert forall i | 0 <= i < |text| && i != |b| :: text[i] != sep;
    assert a == text[..|a|] && b == text[..|b|] && r == text[|a| + 1..] && s == text[|b| + 1..];
  }

  lemma {:induction false} JoinedPartsHaveSep(parts: seq<string>, sep: char)
    ensures |parts| > 1 ==> sep in Join(parts, sep)
  {
    if |parts| > 1 {
      assert Join(parts, sep)[|parts[0]|] == sep;
    }
  }

  lemma {:induction false} NotInOrder(x: string, y: string)
    requires !StringLe(x, y)
    ensures !Sorted([x, y])
  {
    assert [x, y][0] == x && [x, y][1] == y;
  }

  lemma {:induction false} OneOrTwoParts(parts: seq<string>, x: string, y: string)
    requires Join(parts, ',') == x + [','] + y && ',' !in x && ',' !in y
    ensures parts == [x + [','] + y] || parts == [x, y]
  {
    assert parts != [];
    if |parts| > 1 {
      OneCut(parts[0], Join(parts[1..], ','), x, y, ',');
      JoinedPartsHaveSep(parts[1..], ',');
      assert parts == [parts[0]] + parts[1..];
    }
  }

  /** Unsafe names are not enough: when one path has a comma between parts in descending order,
      and there is no other comma or colon, the key is no other claim's. */
  lemma {:induction false} UnsafeNeedNotCollide(e: Event, f: Event, x: string, y: string)
    requires e.body.Ownership? && e.body.paths == [x + [','] + y] && !StringLe(x, y)
    requires ',' !in x && ',' !in y && ':' !in e.from && ':' !in x && ':' !in y
    requires f.body.Ownership? && StateKey(f) == StateKey(e)
    ensures !KeySafe(e) && SubjectOf(f) == SubjectOf(e)
  {
    var path, sorted := e.body.paths[0], SortStrings(f.body.paths);
    assert path[|x|] == ',' && ':' !in path;
    assert e.body.paths[1..] == [] && SortStrings(e.body.paths) == [path];
    SameText(e, f);
    OneCut(f.from, Join(sorted, ','), e.from, path, ':');
    OneOrTwoParts(sorted, x, y);
    SortIsSorted(f.body.paths);
    SortKeepsMultiset(f.body.paths);
    NotInOrder(x, y);
  }
}
