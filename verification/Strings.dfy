/** The string operations the modelled code relies on: splitting and joining on a one-character
    separator, trimming as ECMAScript does, and comparing. Splitting and joining undo each other,
    which is what paths and configuration texts need; trimming is idempotent and its result has no
    whitespace at either edge. */
module Strings {
  /** WhiteSpace and LineTerminator of ECMAScript: what trim removes and \s matches. */
  predicate IsSpace(c: char) {
    || '\t' <= c <= '\r'
    || c == ' '
    || c == '\U{A0}' || c == '\U{1680}'
    || '\U{2000}' <= c <= '\U{200A}'
    || c == '\U{2028}' || c == '\U{2029}' || c == '\U{202F}'
    || c == '\U{205F}' || c == '\U{3000}' || c == '\U{FEFF}'
  }

  /** Those are 25 characters: the white space and line terminators of sections 12.2 and 12.3 of
      ECMA-262, with the space separators of Unicode. */
  lemma {:induction false} SpacesExactly(c: char)
    ensures IsSpace(c) <==>
              c as int in {0x9, 0xA, 0xB, 0xC, 0xD, 0x20, 0xA0, 0x1680, 0x2000, 0x2001, 0x2002, 0x2003, 0x2004, 0x2005,
                           0x2006, 0x2007, 0x2008, 0x2009, 0x200A, 0x2028, 0x2029, 0x202F, 0x205F, 0x3000, 0xFEFF}
  {
  }

  function TrimStart(s: string): string {
    if s != "" && IsSpace(s[0]) then TrimStart(s[1..]) else s
  }

  function TrimEnd(s: string): string {
    if s != "" && IsSpace(s[|s| - 1]) then TrimEnd(s[..|s| - 1]) else s
  }

  function Trim(s: string): string {
    TrimEnd(TrimStart(s))
  }

  /** No whitespace at either edge. */
  predicate Trimmed(s: string) {
    s != "" ==> !IsSpace(s[0]) && !IsSpace(s[|s| - 1])
  }

  lemma {:induction false} TrimEndKeepsFirst(s: string)
    ensures TrimEnd(s) <= s
    ensures TrimEnd(s) != "" ==> !IsSpace(TrimEnd(s)[|TrimEnd(s)| - 1])
  {
    if s != "" && IsSpace(s[|s| - 1]) {
      TrimEndKeepsFirst(s[..|s| - 1]);
    }
  }

  lemma {:induction false} TrimStartIsSuffix(s: string)
    ensures |TrimStart(s)| <= |s| && TrimStart(s) == s[|s| - |TrimStart(s)|..]
    ensures TrimStart(s) != "" ==> !IsSpace(TrimStart(s)[0])
  {
    if s != "" && IsSpace(s[0]) {
      TrimStartIsSuffix(s[1..]);
    }
  }

  /** What is left after trimming lies inside the string, at this distance from its start. */
  lemma {:induction false} TrimWithin(s: string) returns (from: nat)
    ensures from + |Trim(s)| <= |s| && Trim(s) == s[from..from + |Trim(s)|]
    ensures Trimmed(Trim(s))
  {
    var t := TrimStart(s);
    TrimStartIsSuffix(s);
    TrimEndKeepsFirst(t);
    from := |s| - |t|;
    assert TrimEnd(t) == t[..|TrimEnd(t)|];
    assert s[from..][..|TrimEnd(t)|] == s[from..from + |TrimEnd(t)|];
  }

  lemma {:induction false} TrimmedStays(s: string)
    requires Trimmed(s)
    ensures Trim(s) == s
  {
  }

  /** Trimming yields a substring without edge whitespace, and leaves exactly the
      already-trimmed strings alone. */
  lemma {:induction false} TrimIsTrimmed(s: string)
    ensures Trimmed(Trim(s))
    ensures Trim(s) == s <==> Trimmed(s)
    ensures |Trim(s)| <= |s|
    ensures Trim(s) != s ==> |Trim(s)| < |s|
    ensures forall c | c in Trim(s) :: c in s
  {
    var from := TrimWithin(s);
    if Trimmed(s) { TrimmedStays(s); }
    assert |Trim(s)| == |s| ==> from == 0 && s[0..|s|] == s;
  }

  /** The pieces of s between occurrences of sep. */
  function Split(s: string, sep: char): (parts: seq<string>)
    ensures |parts| >= 1
    ensures forall i | 0 <= i < |parts| :: sep !in parts[i]
  {
    if s == "" then [""]
    else
      var rest := Split(s[1..], sep);
      if s[0] == sep then [""] + rest
      else [[s[0]] + rest[0]] + rest[1..]
  }

  function Join(parts: seq<string>, sep: char): string {
    if |parts| == 0 then ""
    else if |parts| == 1 then parts[0]
    else parts[0] + [sep] + Join(parts[1..], sep)
  }

  lemma {:induction false} JoinSplit(s: string, sep: char)
    ensures Join(Split(s, sep), sep) == s
  {
    if s != "" {
      var rest := Split(s[1..], sep);
      JoinSplit(s[1..], sep);
      if s[0] == sep {
        assert ([""] + rest)[1..] == rest;
        assert s == [sep] + s[1..];
      } else {
        var parts := [[s[0]] + rest[0]] + rest[1..];
        assert Split(s, sep) == parts && parts[1..] == rest[1..];
        assert s == [s[0]] + s[1..];
        if |rest| > 1 {
          assert Join(parts, sep) == ([s[0]] + rest[0]) + [sep] + Join(rest[1..], sep);
          assert Join(rest, sep) == rest[0] + [sep] + Join(rest[1..], sep);
          assert Join(parts, sep) == [s[0]] + Join(rest, sep);
        }
      }
    }
  }

  lemma {:induction false} SplitPlain(s: string, sep: char)
    requires sep !in s
    ensures Split(s, sep) == [s]
  {
    if s != "" {
      SplitPlain(s[1..], sep);
      assert [s[0]] + s[1..] == s;
    }
  }

  lemma {:induction false} SplitAppend(a: string, b: string, sep: char)
    ensures Split(a + [sep] + b, sep) == Split(a, sep) + Split(b, sep)
  {
    var whole := a + [sep] + b;
    var right := Split(b, sep);
    if a == "" {
      assert whole[1..] == b;
    } else {
      var rest := Split(a[1..], sep);
      assert Split(whole[1..], sep) == rest + right by {
        assert whole[1..] == a[1..] + [sep] + b;
        SplitAppend(a[1..], b, sep);
      }
      assert whole[0] == a[0];
      if a[0] == sep {
        assert [""] + (rest + right) == ([""] + rest) + right;
      } else {
        var first := [a[0]] + rest[0];
        assert (rest + right)[0] == rest[0];
        assert [first] + (rest + right)[1..] == ([first] + rest[1..]) + right;
      }
    }
  }

  /** The last of the left pieces and the first of the right ones in one. */
  function Meet(left: seq<string>, right: seq<string>): seq<string>
    requires left != [] && right != []
  {
    left[..|left| - 1] + [left[|left| - 1] + right[0]] + right[1..]
  }

  lemma {:induction false} MeetNothing(right: seq<string>)
    requires right != []
    ensures Meet([""], right) == right
  {
    var empty := "";
    assert [empty][..0] == [] && empty + right[0] == right[0] && right == [right[0]] + right[1..];
  }

  lemma {:induction false} MeetBreak(rest: seq<string>, right: seq<string>)
    requires rest != [] && right != []
    ensures Meet([""] + rest, right) == [""] + Meet(rest, right)
  {
    assert ([""] + rest)[..|rest|] == [""] + rest[..|rest| - 1];
  }

  lemma {:induction false} MeetMore(c: char, rest: seq<string>, right: seq<string>)
    requires rest != [] && right != []
    ensures var met := Meet(rest, right);
            Meet([[c] + rest[0]] + rest[1..], right) == [[c] + met[0]] + met[1..]
  {
    var left := [[c] + rest[0]] + rest[1..];
    if |rest| == 1 {
      assert [c] + (rest[0] + right[0]) == left[0] + right[0];
    } else {
      assert left[..|left| - 1] == [[c] + rest[0]] + rest[1..|rest| - 1];
      assert rest[..|rest| - 1] == [rest[0]] + rest[1..|rest| - 1];
    }
  }

  /** Where two texts meet, the last piece of one and the first of the other become one. */
  lemma {:induction false} SplitConcat(a: string, b: string, sep: char)
    ensures Split(a + b, sep) == Meet(Split(a, sep), Split(b, sep))
  {
    if a == "" {
      assert a + b == b;
      MeetNothing(Split(b, sep));
    } else {
      SplitConcat(a[1..], b, sep);
      assert (a + b)[1..] == a[1..] + b && (a + b)[0] == a[0];
      if a[0] == sep {
        MeetBreak(Split(a[1..], sep), Split(b, sep));
      } else {
        MeetMore(a[0], Split(a[1..], sep), Split(b, sep));
      }
    }
  }

  lemma {:induction false} SplitJoin(parts: seq<string>, sep: char)
    requires |parts| >= 1
    requires forall i | 0 <= i < |parts| :: sep !in parts[i]
    ensures Split(Join(parts, sep), sep) == parts
  {
    SplitPlain(parts[0], sep);
    if |parts| > 1 {
      SplitJoin(parts[1..], sep);
      SplitAppend(parts[0], Join(parts[1..], sep), sep);
      assert parts == [parts[0]] + parts[1..];
    } else {
      assert parts == [parts[0]];
    }
  }

  lemma {:induction false} JoinAppend(a: seq<string>, b: seq<string>, sep: char)
    requires |a| >= 1 && |b| >= 1
    ensures Join(a + b, sep) == Join(a, sep) + [sep] + Join(b, sep)
  {
    assert (a + b)[1..] == a[1..] + b;
    if |a| > 1 {
      JoinAppend(a[1..], b, sep);
    } else {
      assert a[1..] + b == b;
    }
  }

  /** The first piece of s is t exactly when s is t alone or t followed by sep. */
  lemma {:induction false} FirstPiece(s: string, t: string, sep: char)
    requires sep !in t
    ensures Split(s, sep)[0] == t <==> s == t || t + [sep] <= s
  {
    var parts := Split(s, sep);
    JoinSplit(s, sep);
    if |parts| == 1 {
      assert s == parts[0];
    } else {
      assert parts[0] + [sep] <= s;
    }
    if s == t {
      SplitPlain(t, sep);
    } else if t + [sep] <= s {
      var rest := s[|t| + 1..];
      assert s == t + [sep] + rest;
      SplitAppend(t, rest, sep);
      SplitPlain(t, sep);
    }
  }
}
