/** Project-relative claim paths: normalisation, overlap, and what they mean as
    sets of files. A path denotes the sequence of its segments, `.` the empty one. */
module Paths {
  import opened Wrappers
  import opened Strings

  datatype PathError = NotRelative | EscapesProject

  function ToSlashes(s: string): (r: string)
    ensures |r| == |s|
    ensures forall i | 0 <= i < |s| :: r[i] == if s[i] == '\\' then '/' else s[i]
  {
    seq(|s|, i requires 0 <= i < |s| => if s[i] == '\\' then '/' else s[i])
  }

  predicate IsAbsolute(s: string) {
    s != "" && s[0] == '/'
  }

  predicate HasDriveLetter(s: string) {
    |s| >= 3 && ('A' <= s[0] <= 'Z' || 'a' <= s[0] <= 'z') && s[1] == ':' && s[2] == '/'
  }

  /** One segment of posix.normalize: `..` drops the previous name if there is one. */
  function Push(done: seq<string>, segment: string, allowAboveRoot: bool): seq<string> {
    if segment == "" || segment == "." then done
    else if segment == ".." then
      if done != [] && done[|done| - 1] != ".." then done[..|done| - 1]
      else if allowAboveRoot then done + [".."]
      else done
    else done + [segment]
  }

  function Walk(segments: seq<string>, allowAboveRoot: bool): seq<string> {
    if segments == [] then []
    else Push(Walk(segments[..|segments| - 1], allowAboveRoot), segments[|segments| - 1], allowAboveRoot)
  }

  function PosixNormalize(path: string): string {
    if path == "" then "."
    else
      var absolute := path[0] == '/';
      var trailing := path[|path| - 1] == '/';
      var walked := Walk(Split(path, '/'), !absolute);
      if walked == [] then (if absolute then "/" else if trailing then "./" else ".")
      else (if absolute then "/" else "") + Join(walked, '/') + (if trailing then "/" else "")
  }

  function NormalizeClaimPath(value: string): Result<string, PathError> {
    var portable := ToSlashes(Trim(value));
    if IsAbsolute(portable) || HasDriveLetter(portable) then Err(NotRelative)
    else
      FinishClaimPath(PosixNormalize(portable))
  }

  /** The steps after posix.normalize: drop `./`, reject escapes, drop a trailing slash. */
  function FinishClaimPath(posix: string): Result<string, PathError> {
    var normalized := if "./" <= posix then posix[2..] else posix;
    if normalized == ".." || "../" <= normalized then Err(EscapesProject)
    else
      var stripped :=
        if normalized != "" && normalized[|normalized| - 1] == '/' then normalized[..|normalized| - 1]
        else normalized;
      Ok(if stripped == "" then "." else stripped)
  }

  // ---- What normalisation computes ----

  /** A segment that names something: not empty, not `.`, not `..`. */
  predicate IsName(segment: string) {
    segment != "" && segment != "." && segment != ".." && '/' !in segment && '\\' !in segment
  }

  /** The normal form of claim paths. */
  predicate Canonical(path: string) {
    path == "." || forall i | 0 <= i < |Split(path, '/')| :: IsName(Split(path, '/')[i])
  }

  function Segments(path: string): seq<string> {
    if path == "." then [] else Split(path, '/')
  }

  function Render(segments: seq<string>): string {
    if segments == [] then "." else Join(segments, '/')
  }

  /** Names and `..` only, every `..` before every name. */
  predicate Reduced(segments: seq<string>) {
    && (forall i | 0 <= i < |segments| :: IsName(segments[i]) || segments[i] == "..")
    && (forall i | 0 < i < |segments| :: segments[i] == ".." ==> segments[i - 1] == "..")
  }

  lemma {:induction false} WalkIsReduced(segments: seq<string>)
    requires forall i | 0 <= i < |segments| :: '/' !in segments[i] && '\\' !in segments[i]
    ensures Reduced(Walk(segments, true))
  {
    if segments != [] {
      WalkIsReduced(segments[..|segments| - 1]);
    }
  }

  lemma {:induction false} ReducedWithoutClimb(segments: seq<string>, i: nat)
    requires Reduced(segments) && i < |segments| && segments[0] != ".."
    ensures IsName(segments[i])
  {
    if i > 0 {
      ReducedWithoutClimb(segments, i - 1);
    }
  }

  lemma {:induction false} WalkOfNames(segments: seq<string>)
    requires forall i | 0 <= i < |segments| :: IsName(segments[i])
    ensures Walk(segments, true) == segments
  {
    if segments != [] {
      WalkOfNames(segments[..|segments| - 1]);
    }
  }

  /** How far a walk stands above (+) or below (-) its start. */
  function Balance(segments: seq<string>): int {
    if segments == [] then 0
    else
      var last := segments[|segments| - 1];
      Balance(segments[..|segments| - 1]) +
      (if last == "" || last == "." then 0 else if last == ".." then -1 else 1)
  }

  lemma {:induction false} WalkWithoutClimb(segments: seq<string>)
    ensures var walked := Walk(segments, true);
            walked != [] && walked[0] != ".." ==> ".." !in walked
  {
    if segments != [] {
      WalkWithoutClimb(segments[..|segments| - 1]);
    }
  }

  ghost predicate DipsBelow(segments: seq<string>) {
    exists k | 0 <= k <= |segments| :: Balance(segments[..k]) < 0
  }

  lemma {:induction false} DipsNext(segments: seq<string>)
    requires segments != []
    ensures DipsBelow(segments) <==> DipsBelow(segments[..|segments| - 1]) || Balance(segments) < 0
  {
    var init := segments[..|segments| - 1];
    assert segments[..|segments|] == segments;
    assert forall k | 0 <= k <= |init| :: init[..k] == segments[..k];
    if DipsBelow(init) {
      var k :| 0 <= k <= |init| && Balance(init[..k]) < 0;
      assert Balance(segments[..k]) < 0;
    }
    if Balance(segments) < 0 {
      assert Balance(segments[..|segments|]) < 0;
    }
    if DipsBelow(segments) {
      var k :| 0 <= k <= |segments| && Balance(segments[..k]) < 0;
      assert k <= |init| ==> Balance(init[..k]) < 0;
    }
  }

  /** A relative walk still points above its start after reduction exactly when some
      prefix of it did, even if it came down again by name afterwards. */
  lemma {:induction false} ClimbsExactly(segments: seq<string>)
    ensures (Walk(segments, true) != [] && Walk(segments, true)[0] == "..") <==> DipsBelow(segments)
    ensures (Walk(segments, true) == [] || Walk(segments, true)[0] != "..")
            ==> |Walk(segments, true)| == Balance(segments)
  {
    if segments == [] {
      assert segments[..0] == [];
    } else {
      var init := segments[..|segments| - 1];
      ClimbsExactly(init);
      WalkWithoutClimb(init);
      DipsNext(segments);
    }
  }

  lemma {:induction false} JoinedNames(segments: seq<string>)
    requires segments != [] && Reduced(segments)
    ensures Split(Join(segments, '/'), '/') == segments
    ensures Join(segments, '/') != "" && Join(segments, '/')[|Join(segments, '/')| - 1] != '/'
    ensures Join(segments, '/')[0] != '/'
  {
    SplitJoin(segments, '/');
    var last := segments[|segments| - 1];
    if |segments| > 1 {
      JoinAppend(segments[..|segments| - 1], [last], '/');
      assert segments[..|segments| - 1] + [last] == segments;
    }
  }

  /** Normalisation as a function of the reduced walk: it rejects walks that climb above
      the project and renders the others, whatever their spelling. */
  lemma {:induction false} NormalizeMeaning(value: string)
    requires !IsAbsolute(ToSlashes(Trim(value))) && !HasDriveLetter(ToSlashes(Trim(value)))
    ensures var walked := Walk(Split(ToSlashes(Trim(value)), '/'), true);
            NormalizeClaimPath(value) ==
            if walked != [] && walked[0] == ".." then Err(EscapesProject) else Ok(Render(walked))
  {
    var portable := ToSlashes(Trim(value));
    var parts := Split(portable, '/');
    var walked := Walk(parts, true);
    PiecesHaveNoSlash(portable);
    WalkIsReduced(parts);
    if portable == "" {
      WalkNothing(parts);
    } else if walked != [] {
      var trailing := portable[|portable| - 1] == '/';
      FinishJoined(walked, trailing);
      assert PosixNormalize(portable) == Join(walked, '/') + (if trailing then "/" else "");
    }
  }

  lemma {:induction false} WalkNothing(parts: seq<string>)
    requires parts == [""]
    ensures Walk(parts, true) == []
  {
    assert parts[..0] == [];
  }

  lemma {:induction false} FinishJoined(walked: seq<string>, trailing: bool)
    requires walked != [] && Reduced(walked)
    ensures FinishClaimPath(Join(walked, '/') + (if trailing then "/" else "")) ==
            if walked[0] == ".." then Err(EscapesProject) else Ok(Join(walked, '/'))
  {
    var joined := Join(walked, '/');
    var posix := joined + (if trailing then "/" else "");
    JoinedNames(walked);
    FirstPiece(joined, ".", '/');
    FirstPiece(joined, "..", '/');
    assert walked[0] != ".";
    LeadsPosix(joined, ".", trailing);
    LeadsPosix(joined, "..", trailing);
    assert "." + "/" == "./" && ".." + "/" == "../";
    if walked[0] != ".." {
      assert !("./" <= posix) && posix != ".." && !("../" <= posix);
      if trailing {
        assert posix[|posix| - 1] == '/' && posix[..|posix| - 1] == joined;
      } else {
        assert posix == joined;
      }
    }
  }

  /** A trailing slash does not change which segment a path starts with. */
  lemma {:induction false} LeadsPosix(joined: string, segment: string, trailing: bool)
    requires joined != "" && joined[|joined| - 1] != '/' && segment != "" && '/' !in segment
    ensures var posix := joined + (if trailing then "/" else "");
            (posix == segment || segment + "/" <= posix) <==> (joined == segment || segment + "/" <= joined)
  {
    var posix := joined + (if trailing then "/" else "");
    if segment + "/" <= posix {
      assert posix[|segment|] == '/' && posix[..|segment|] == segment;
      if |joined| == |segment| {
        assert joined == posix[..|segment|];
      } else if |joined| > |segment| {
        assert joined[..|segment| + 1] == posix[..|segment| + 1] == segment + "/";
      }
    }
    if trailing && joined == segment {
      assert segment + "/" <= posix;
    }
  }

  lemma {:induction false} PiecesHaveNoSlash(portable: string)
    requires '\\' !in portable
    ensures forall i | 0 <= i < |Split(portable, '/')| ::
              '/' !in Split(portable, '/')[i] && '\\' !in Split(portable, '/')[i]
  {
    forall i | 0 <= i < |Split(portable, '/')| ensures '\\' !in Split(portable, '/')[i] {
      PieceWithin(portable, '/', i);
    }
  }

  lemma {:induction false} PieceWithin(s: string, sep: char, i: nat)
    requires i < |Split(s, sep)|
    ensures forall c | c in Split(s, sep)[i] :: c in s
  {
    if s != "" {
      var rest := Split(s[1..], sep);
      if s[0] == sep {
        if i > 0 { PieceWithin(s[1..], sep, i - 1); }
      } else {
        PieceWithin(s[1..], sep, i);
      }
    }
  }

  /** Whatever is accepted is in normal form: project-relative, without `.` or `..`
      segments, without a trailing slash. */
  lemma {:induction false} NormalizedIsCanonical(value: string)
    requires NormalizeClaimPath(value).Ok?
    ensures Canonical(NormalizeClaimPath(value).value)
    ensures NormalizeClaimPath(value).value != "" && '\\' !in NormalizeClaimPath(value).value
  {
    var portable := ToSlashes(Trim(value));
    var parts := Split(portable, '/');
    var walked := Walk(parts, true);
    NormalizeMeaning(value);
    PiecesHaveNoSlash(portable);
    WalkIsReduced(parts);
    if walked != [] {
      JoinedNames(walked);
      forall i | 0 <= i < |walked| ensures IsName(walked[i]) {
        ReducedWithoutClimb(walked, i);
      }
      JoinHasNoBackslash(walked);
    }
  }

  lemma {:induction false} JoinHasNoBackslash(segments: seq<string>)
    requires forall i | 0 <= i < |segments| :: '\\' !in segments[i]
    ensures '\\' !in Join(segments, '/')
  {
    if |segments| > 1 {
      JoinHasNoBackslash(segments[1..]);
    }
  }

  lemma {:induction false} CanonicalHasNoBackslash(path: string)
    requires Canonical(path)
    ensures '\\' !in path
  {
    if path != "." {
      JoinSplit(path, '/');
      JoinHasNoBackslash(Split(path, '/'));
    }
  }

  /** Acceptance, decided on the raw spelling: a relative path is accepted exactly when
      no prefix of it steps above the project directory. */
  lemma {:induction false} AcceptedExactly(value: string)
    ensures NormalizeClaimPath(value).Ok? <==>
              var portable := ToSlashes(Trim(value));
              && !IsAbsolute(portable) && !HasDriveLetter(portable)
              && forall k | 0 <= k <= |Split(portable, '/')| :: Balance(Split(portable, '/')[..k]) >= 0
  {
    var portable := ToSlashes(Trim(value));
    if !IsAbsolute(portable) && !HasDriveLetter(portable) {
      NormalizeMeaning(value);
      ClimbsExactly(Split(portable, '/'));
    }
  }

  /** A path that normalisation leaves alone: what the log stores is what a later read sees. */
  predicate Stable(path: string) {
    NormalizeClaimPath(path) == Ok(path)
  }

  function Weight(segments: seq<string>): nat {
    if segments == [] then 0
    else Weight(segments[..|segments| - 1]) + |segments[|segments| - 1]| + 1
  }

  lemma {:induction false} JoinWeight(segments: seq<string>)
    requires segments != []
    ensures |Join(segments, '/')| + 1 == Weight(segments)
  {
    if |segments| > 1 {
      var init, last := segments[..|segments| - 1], segments[|segments| - 1];
      JoinWeight(init);
      JoinAppend(init, [last], '/');
      assert init + [last] == segments;
    } else {
      assert segments[..0] == [];
    }
  }

  lemma {:induction false} WalkWeight(segments: seq<string>)
    ensures Weight(Walk(segments, true)) <= Weight(segments)
  {
    if segments != [] {
      var init, last := segments[..|segments| - 1], segments[|segments| - 1];
      WalkWeight(init);
      var before := Walk(init, true);
      var after := Push(before, last, true);
      if after == before + [last] {
        assert after[..|after| - 1] == before;
      }
    }
  }

  lemma {:induction false} DotIsStable()
    ensures Stable(".")
  {
    TrimIsTrimmed(".");
    assert ToSlashes(".") == ".";
    SplitPlain(".", '/');
    assert Walk(["."], true) == [] by { assert ["."][..0] == []; }
    NormalizeMeaning(".");
  }

  lemma {:induction false} CanonicalIsStable(r: string)
    requires Canonical(r) && Trimmed(r) && !HasDriveLetter(r)
    ensures Stable(r)
  {
    CanonicalHasNoBackslash(r);
    TrimIsTrimmed(r);
    assert ToSlashes(r) == r;
    if r == "." {
      DotIsStable();
    } else {
      JoinSplit(r, '/');
      assert IsName(Split(r, '/')[0]);
      FirstPiece(r, "", '/');
      assert r != "" && (r[0] == '/' ==> "" + ['/'] <= r);
      NormalizeMeaning(r);
      WalkOfNames(Split(r, '/'));
    }
  }

  /** Normalising twice is normalising once exactly when the first result has no edge
      whitespace and does not start like a drive: normalisation trims before it drops
      leading `./` segments, so it can uncover either. */
  lemma {:induction false} IdempotentExactly(value: string)
    requires NormalizeClaimPath(value).Ok?
    ensures var r := NormalizeClaimPath(value).value;
            Stable(r) <==> Trimmed(r) && !HasDriveLetter(r)
  {
    var r := NormalizeClaimPath(value).value;
    NormalizedIsCanonical(value);
    TrimIsTrimmed(r);
    if Trimmed(r) {
      assert ToSlashes(r) == r;
      if !HasDriveLetter(r) { CanonicalIsStable(r); }
    } else if Stable(r) {
      var portable := ToSlashes(Trim(r));
      NormalizeMeaning(r);
      var walked := Walk(Split(portable, '/'), true);
      assert r == Render(walked);
      if walked != [] {
        JoinWeight(walked);
        WalkWeight(Split(portable, '/'));
        JoinWeight(Split(portable, '/'));
        JoinSplit(portable, '/');
        assert false;
      }
    }
  }

  /** A claim path whose stored form is read back as another path. */
  lemma {:induction false} EdgeWhitespaceIsNotStable()
    ensures NormalizeClaimPath("./ a") == Ok(" a") && !Stable(" a")
  {
    SplitPlain(" a", '/');
    assert IsName(" a");
    DropsDot("./ a", " a");
    NotStable("./ a", " a");
  }

  /** A claim path whose stored form is rejected when it is read back. */
  lemma {:induction false} UncoveredDriveIsNotStable()
    ensures NormalizeClaimPath("./C:/x") == Ok("C:/x") && !Stable("C:/x")
  {
    UncoveredDrive("./C:/x", "C:/x", "C:", "x");
  }

  lemma {:induction false} UncoveredDrive(path: string, stored: string, drive: string, name: string)
    requires path == "./" + stored && stored == drive + "/" + name && HasDriveLetter(stored) && '\\' !in stored
    requires IsName(drive) && IsName(name) && !IsSpace(name[|name| - 1])
    ensures NormalizeClaimPath(path) == Ok(stored) && !Stable(stored)
  {
    TwoNames(stored, drive, name);
    assert stored[|stored| - 1] == name[|name| - 1];
    DropsDot(path, stored);
    NotStable(path, stored);
  }

  lemma {:induction false} NotStable(value: string, r: string)
    requires NormalizeClaimPath(value) == Ok(r) && (HasDriveLetter(r) || !Trimmed(r))
    ensures !Stable(r)
  {
    IdempotentExactly(value);
  }

  lemma {:induction false} TwoNames(path: string, parent: string, child: string)
    requires IsName(parent) && IsName(child) && path == parent + "/" + child
    ensures Split(path, '/') == [parent, child]
    ensures forall i | 0 <= i < |Split(path, '/')| :: IsName(Split(path, '/')[i])
  {
    SplitPlain(parent, '/');
    SplitPlain(child, '/');
    SplitAppend(parent, child, '/');
  }

  lemma {:induction false} DropsDot(value: string, rest: string)
    requires value == "./" + rest && rest != "" && !IsSpace(rest[|rest| - 1]) && '\\' !in rest
    requires forall i | 0 <= i < |Split(rest, '/')| :: IsName(Split(rest, '/')[i])
    ensures NormalizeClaimPath(value) == Ok(rest)
  {
    var names := Split(rest, '/');
    assert Trim(value) == value && ToSlashes(value) == value by {
      TrimIsTrimmed(value);
      assert value[|value| - 1] == rest[|rest| - 1];
    }
    assert Split(value, '/') == ["."] + names by {
      assert value == "." + ['/'] + rest;
      SplitAppend(".", rest, '/');
      SplitPlain(".", '/');
    }
    assert Walk(Split(value, '/'), true) == names by { WalkAfterDot(names); }
    assert Render(names) == rest by { JoinSplit(rest, '/'); }
    assert names[0] != ".." by { assert IsName(names[0]); }
    NormalizeMeaning(value);
  }

  lemma {:induction false} WalkAfterDot(names: seq<string>)
    requires forall i | 0 <= i < |names| :: IsName(names[i])
    ensures Walk(["."] + names, true) == names
  {
    var whole := ["."] + names;
    if names == [] {
      assert whole[..0] == [];
    } else {
      assert whole[..|whole| - 1] == ["."] + names[..|names| - 1];
      WalkAfterDot(names[..|names| - 1]);
    }
  }

  // ---- Overlap ----

  predicate PathsOverlap(left: string, right: string) {
    || left == right
    || left == "."
    || right == "."
    || right + "/" <= left
    || left + "/" <= right
  }

  /** A claim covers a file when its segments are an ancestor of the file's, or the file's own. */
  predicate Covers(claim: string, file: seq<string>) {
    Segments(claim) <= file
  }

  lemma {:induction false} SubtreeExactly(child: string, parent: string)
    requires Canonical(child) && Canonical(parent) && child != "." && parent != "."
    ensures child == parent || parent + "/" <= child <==> Segments(parent) <= Segments(child)
  {
    JoinSplit(child, '/');
    JoinSplit(parent, '/');
    if parent + "/" <= child {
      var rest := child[|parent| + 1..];
      assert child == parent + ['/'] + rest;
      SplitAppend(parent, rest, '/');
    }
    if Segments(parent) <= Segments(child) && Segments(parent) != Segments(child) {
      var below := Segments(child)[|Segments(parent)|..];
      assert Segments(child) == Segments(parent) + below;
      JoinAppend(Segments(parent), below, '/');
      assert child == parent + "/" + Join(below, '/');
    }
  }

  /** The string test on normal forms is the prefix order on segments, in one direction or
      the other, and that is the same as having a file in common. */
  lemma {:induction false} OverlapIsSharedFile(left: string, right: string)
    requires Canonical(left) && Canonical(right)
    ensures PathsOverlap(left, right) <==>
              Segments(left) <= Segments(right) || Segments(right) <= Segments(left)
    ensures PathsOverlap(left, right) <==> exists file :: Covers(left, file) && Covers(right, file)
  {
    if left != "." && right != "." {
      SubtreeExactly(left, right);
      SubtreeExactly(right, left);
      assert Segments(left) == Segments(right) ==> left == right by {
        JoinSplit(left, '/');
        JoinSplit(right, '/');
      }
    }
    if Segments(left) <= Segments(right) {
      assert Covers(left, Segments(right)) && Covers(right, Segments(right));
    }
    if Segments(right) <= Segments(left) {
      assert Covers(left, Segments(left)) && Covers(right, Segments(left));
    }
    forall file | Covers(left, file) && Covers(right, file)
      ensures Segments(left) <= Segments(right) || Segments(right) <= Segments(left)
    {
    }
  }

  predicate PlainName(name: string) {
    IsName(name) && Trimmed(name) && !HasDriveLetter(name + "/")
  }

  lemma {:induction false} PlainNameIsStable(name: string)
    requires PlainName(name)
    ensures Canonical(name) && Segments(name) == [name] && Stable(name) && NormalizeClaimPath(" " + name) == Ok(name)
  {
    SplitPlain(name, '/');
    CanonicalIsStable(name);
    var padded := " " + name;
    assert padded[1..] == name;
    TrimmedStays(name);
    assert TrimStart(padded) == TrimStart(name) && Trim(padded) == Trim(name);
  }

  lemma {:induction false} ChildIsStable(name: string, child: string)
    requires PlainName(name) && PlainName(child)
    ensures var inner := name + "/" + child; Segments(inner) == [name, child] && Stable(inner)
  {
    var inner := name + "/" + child;
    TwoNames(inner, name, child);
    assert inner[0] == name[0] && inner[|inner| - 1] == child[|child| - 1];
    var start := name + "/";
    assert forall k | 0 <= k < |start| :: inner[k] == start[k];
    assert |name| > 2 ==> name[2] != '/';
    CanonicalIsStable(inner);
  }

  lemma {:induction false} DotSpaceNormalizes(name: string)
    requires PlainName(name)
    ensures Trim("./ " + name) == "./ " + name && NormalizeClaimPath("./ " + name) == Ok(" " + name)
  {
    var stored := " " + name;
    assert stored[0] == ' ' && stored[|stored| - 1] == name[|name| - 1];
    assert forall c | c in stored :: c == ' ' || c in name;
    assert "./ " + name == "./" + stored;
    DotNormalizes("./" + stored, stored);
  }

  lemma {:induction false} DotNormalizes(path: string, name: string)
    requires path == "./" + name && IsName(name) && !IsSpace(name[|name| - 1])
    ensures Trim(path) == path && NormalizeClaimPath(path) == Ok(name)
  {
    SplitPlain(name, '/');
    DropsDot(path, name);
    assert path[0] == '.' && path[|path| - 1] == name[|name| - 1];
    TrimmedStays(path);
  }

  lemma {:induction false} NoOverlapByFirst(a: string, b: string)
    requires a != "" && b != "" && a[0] != b[0] && a != "." && b != "."
    ensures !PathsOverlap(a, b)
  {
    assert (a + "/")[0] == a[0] && (b + "/")[0] == b[0];
  }

  /** A path like `./ a` is stored apart from `a/x` and read back as the directory above it. */
  lemma {:induction false} UnstableReading(name: string, child: string)
    requires PlainName(name) && PlainName(child)
    ensures var inner, path := name + "/" + child, "./ " + name;
            && Stable(inner) && Trim(inner) == inner && Trim(path) == path
            && NormalizeClaimPath(path) == Ok(" " + name) && NormalizeClaimPath(" " + name) == Ok(name)
            && !PathsOverlap(" " + name, inner) && Covers(name, Segments(inner)) && name != inner
  {
    var inner, stored := name + "/" + child, " " + name;
    PlainNameIsStable(name);
    ChildIsStable(name, child);
    DotSpaceNormalizes(name);
    assert inner[0] == name[0] && inner[|inner| - 1] == child[|child| - 1] && stored[0] == ' ';
    TrimmedStays(inner);
    NoOverlapByFirst(stored, inner);
  }
}
