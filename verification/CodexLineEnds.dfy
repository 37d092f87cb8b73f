/** Line ends in the configuration. The search for a table wants a line feed behind the header, the
    check for an existing table takes any line terminator, so that a table may be refused as
    existing and yet not be found. */
module CodexLineEnds {
  import opened Wrappers
  import opened Strings
  import opened TomlStrings
  import opened CodexConfig
  import opened CodexRoundTrip

  /** A line as the search sees it: up to a line feed or the end, from behind any terminator. */
  predicate SearchedLine(content: string, i: int, j: int)
    requires 0 <= i <= j <= |content|
  {
    && (i == 0 || Terminator(content[i - 1])) && (j == |content| || content[j] == '\n')
    && forall k | i <= k < j :: !Terminator(content[k])
  }

  ghost predicate FoundLine(content: string, header: string) {
    exists i, j | 0 <= i <= j <= |content| :: SearchedLine(content, i, j) && IsHeader(content[i..j], header)
  }

  // ---- Pieces of a text ----

  /** Where the line of position p starts, if only line feeds end lines. */
  function LineStart(s: string, p: nat): (a: nat)
    requires p <= |s|
    ensures a <= p && (a == 0 || s[a - 1] == '\n')
    ensures forall k | a <= k < p :: s[k] != '\n'
  {
    if p == 0 || s[p - 1] == '\n' then p else LineStart(s, p - 1)
  }

  function LineEnd(s: string, p: nat): (b: nat)
    requires p <= |s|
    ensures p <= b <= |s| && (b == |s| || s[b] == '\n')
    ensures forall k | p <= k < b :: s[k] != '\n'
    decreases |s| - p
  {
    if p == |s| || s[p] == '\n' then p else LineEnd(s, p + 1)
  }

  lemma {:induction false} FirstPieceOf(s: string, b: nat)
    requires b <= |s| && (b == |s| || s[b] == '\n') && '\n' !in s[..b]
    ensures Split(s, '\n')[0] == s[..b]
  {
    SplitPlain(s[..b], '\n');
    if b == |s| {
      assert s[..b] == s;
    } else {
      assert s == s[..b] + ['\n'] + s[b + 1..];
      SplitAppend(s[..b], s[b + 1..], '\n');
    }
  }

  /** What lies between two line feeds, or between one and an end, is a piece; it is the last one
      exactly when it reaches the end. */
  lemma {:induction false} PieceBetween(s: string, a: nat, b: nat) returns (k: nat)
    requires a <= b <= |s| && (a == 0 || s[a - 1] == '\n') && (b == |s| || s[b] == '\n') && '\n' !in s[a..b]
    ensures k < |Split(s, '\n')| && Split(s, '\n')[k] == s[a..b]
  {
    if a == 0 {
      FirstPieceOf(s, b);
      k := 0;
    } else {
      var left, right := s[..a - 1], s[a..];
      assert s == left + ['\n'] + right && right[..b - a] == s[a..b];
      assert b < |s| ==> right[b - a] == s[b];
      SplitAppend(left, right, '\n');
      FirstPieceOf(right, b - a);
      k := |Split(left, '\n')|;
    }
  }

  lemma {:induction false} AfterLast(x: string, y: string)
    requires (x == "" || OtherTerminator(x[|x| - 1])) && Intact(y)
    ensures AfterTerminator(x + y) == y
  {
    if y == "" {
      assert x + y == x;
    } else {
      assert (x + y)[..|x + y| - 1] == x + y[..|y| - 1];
      AfterLast(x, y[..|y| - 1]);
    }
  }

  // ---- What is found ----

  /** The line of each piece; the last one is missing when it is empty. */
  lemma {:induction false} LineOfPiece(content: string, k: nat)
    requires k < |Split(content, '\n')|
    ensures var parts, lines := Split(content, '\n'), LinesOf(content);
            && |parts| - 1 <= |lines| <= |parts|
            && (k < |lines| ==> Trim(lines[k]) == Trim(AfterTerminator(parts[k])))
            && (k >= |lines| ==> AfterTerminator(parts[k]) == "")
  {
    var parts := Split(content, '\n');
    var init := parts[..|parts| - 1];
    EndedLength(init);
    if k < |init| {
      EndedAt(init, k);
      TrimBreak(AfterTerminator(parts[k]));
    }
  }

  lemma {:induction false} Slices(s: string, a: nat, i: nat, j: nat)
    requires a <= i <= j <= |s|
    ensures s[a..j] == s[a..i] + s[i..j] && s[a..j][i - a..] == s[i..j]
  {
  }

  lemma {:induction false} InSlice(s: string, i: nat, j: nat, from: nat, n: nat)
    requires i <= j <= |s| && from + n <= j - i
    ensures s[i..j][from..from + n] == s[i + from..i + from + n]
  {
    var part, inner := s[i..j], s[i..j][from..from + n];
    forall k | 0 <= k < n ensures inner[k] == s[i + from..i + from + n][k] {
      assert inner[k] == part[from + k];
    }
  }

  lemma {:induction false} SuffixIntact(s: string)
    ensures Intact(AfterTerminator(s))
  {
    if s != "" {
      SuffixIntact(s[..|s| - 1]);
    }
  }

  lemma {:induction false} NoTerminators(p: string)
    requires '\n' !in p
    ensures forall n | 0 <= n < |AfterTerminator(p)| :: !Terminator(AfterTerminator(p)[n])
  {
    AfterTerminatorIsSuffix(p);
    SuffixIntact(p);
    var y, t := AfterTerminator(p), |p| - |AfterTerminator(p)|;
    assert forall n | 0 <= n < |y| :: y[n] == p[t + n];
  }

  lemma {:induction false} SearchedAt(content: string, i: nat, j: nat, y: string)
    requires i <= j <= |content| && content[i..j] == y && forall n | 0 <= n < |y| :: !Terminator(y[n])
    requires (i == 0 || Terminator(content[i - 1])) && (j == |content| || content[j] == '\n')
    ensures SearchedLine(content, i, j)
  {
    assert forall n | i <= n < j :: content[n] == y[n - i];
  }

  lemma {:induction false} TailIsSearched(content: string, a: nat, b: nat, p: string, y: string)
    requires a <= b <= |content| && content[a..b] == p && '\n' !in p && y == AfterTerminator(p)
    requires (a == 0 || content[a - 1] == '\n') && (b == |content| || content[b] == '\n')
    ensures a + |y| <= b && SearchedLine(content, b - |y|, b) && content[b - |y|..b] == y
  {
    AfterTerminatorIsSuffix(p);
    NoTerminators(p);
    var i := b - |y|;
    Slices(content, a, i, b);
    assert a < i ==> content[i - 1] == p[i - a - 1];
    SearchedAt(content, i, b, y);
  }

  lemma {:induction false} PieceIsSearched(content: string, k: nat) returns (i: nat, j: nat)
    requires k < |Split(content, '\n')|
    ensures i <= j <= |content| && SearchedLine(content, i, j)
    ensures content[i..j] == AfterTerminator(Split(content, '\n')[k])
  {
    var p := Split(content, '\n')[k];
    var a := PieceAt(content, k);
    j := a + |p|;
    TailIsSearched(content, a, j, p, AfterTerminator(p));
    i := j - |AfterTerminator(p)|;
  }

  lemma {:induction false} LineIsSearched(content: string, header: string, k: nat)
    requires k < |LinesOf(content)| && IsHeader(LinesOf(content)[k], header)
    ensures FoundLine(content, header)
  {
    LineOfPiece(content, 0);
    LineOfPiece(content, k);
    var i, j := PieceIsSearched(content, k);
    assert IsHeader(content[i..j], header);
  }

  lemma {:induction false} SearchedIsPiece(content: string, i: nat, j: nat) returns (k: nat)
    requires i <= j <= |content| && SearchedLine(content, i, j)
    ensures k < |Split(content, '\n')| && AfterTerminator(Split(content, '\n')[k]) == content[i..j]
  {
    var a := LineStart(content, i);
    Slices(content, a, i, j);
    k := PieceBetween(content, a, j);
    assert a < i ==> content[a..i][i - a - 1] == content[i - 1];
    AfterLast(content[a..i], content[i..j]);
  }

  lemma {:induction false} SearchedIsLine(content: string, header: string, i: nat, j: nat) returns (k: nat)
    requires i <= j <= |content| && SearchedLine(content, i, j) && IsHeader(content[i..j], header) && header != ""
    ensures k < |LinesOf(content)| && IsHeader(LinesOf(content)[k], header)
  {
    k := SearchedIsPiece(content, i, j);
    LineOfPiece(content, k);
    assert Trim("") == "";
  }

  /** A server's table is found exactly when its header stands, but for whitespace, alone between any
      line terminator and a line feed or the end of the text. */
  lemma {:induction false} FoundExactly(content: string, name: string)
    requires SafeName(name)
    ensures ServerBlock(content, name).Ok?
    ensures ServerBlock(content, name).value.Some? <==> FoundLine(content, TableHeader(name))
  {
    var header, lines := TableHeader(name), LinesOf(content);
    var at := HeaderAt(lines, header);
    assert header[0] == '[';
    if at < |lines| {
      LineIsSearched(content, header, at);
    } else if FoundLine(content, header) {
      var i, j :| 0 <= i <= j <= |content| && SearchedLine(content, i, j) && IsHeader(content[i..j], header);
      var k := SearchedIsLine(content, header, i, j);
    }
  }

  // ---- Texts whose lines end with line feeds only ----

  lemma {:induction false} TrimEndPadded(h: string, y: string)
    requires Trimmed(h) && forall c | c in y :: IsSpace(c)
    ensures TrimEnd(h + y) == h
  {
    if y == "" {
      assert h + y == h;
    } else {
      assert y[|y| - 1] in y && (h + y)[..|h + y| - 1] == h + y[..|y| - 1];
      TrimEndPadded(h, y[..|y| - 1]);
    }
  }

  lemma {:induction false} TrimPadded(x: string, h: string, y: string)
    requires h != "" && Trimmed(h) && (forall c | c in x :: IsSpace(c)) && forall c | c in y :: IsSpace(c)
    ensures Trim(x + h + y) == h
  {
    if x == "" {
      assert x + h + y == h + y && (h + y)[0] == h[0];
      TrimEndPadded(h, y);
    } else {
      assert x[0] in x && (x + h + y)[1..] == x[1..] + h + y;
      TrimPadded(x[1..], h, y);
    }
  }

  /** What trimming takes away is whitespace. */
  lemma {:induction false} TrimTakesSpace(s: string) returns (from: nat)
    ensures from + |Trim(s)| <= |s| && s[from..from + |Trim(s)|] == Trim(s)
    ensures forall k | 0 <= k < from || from + |Trim(s)| <= k < |s| :: IsSpace(s[k])
  {
    if s != "" && IsSpace(s[0]) {
      var rest := TrimTakesSpace(s[1..]);
      from := rest + 1;
      assert forall k | 1 <= k < |s| :: s[k] == s[1..][k - 1];
    } else {
      from := 0;
      TrimEndTakesSpace(s);
    }
  }

  lemma {:induction false} TrimEndTakesSpace(s: string)
    ensures TrimEnd(s) <= s && forall k | |TrimEnd(s)| <= k < |s| :: IsSpace(s[k])
  {
    if s != "" && IsSpace(s[|s| - 1]) {
      TrimEndTakesSpace(s[..|s| - 1]);
    }
  }

  lemma {:induction false} SameHeader(content: string, header: string, i: nat, j: nat, p: nat, a: nat, b: nat)
    requires i <= a <= p && p + |header| <= b <= j <= |content| && content[p..p + |header|] == header
    requires forall k | i <= k < p || p + |header| <= k < j :: IsSpace(content[k])
    requires header != "" && Trimmed(header)
    ensures IsHeader(content[a..b], header)
  {
    var q := p + |header|;
    Slices(content, a, p, b);
    Slices(content, p, q, b);
    assert content[a..b] == content[a..p] + header + content[q..b];
    TrimPadded(content[a..p], header, content[q..b]);
  }

  lemma {:induction false} HeaderWithin(content: string, header: string, i: nat, j: nat) returns (p: nat)
    requires i <= j <= |content| && IsHeader(content[i..j], header)
    ensures i <= p && p + |header| <= j && content[p..p + |header|] == header
    ensures forall k | i <= k < p || p + |header| <= k < j :: IsSpace(content[k])
  {
    var from := TrimTakesSpace(content[i..j]);
    p := i + from;
    InSlice(content, i, j, from, |header|);
    forall k | i <= k < p || p + |header| <= k < j ensures IsSpace(content[k]) {
      assert content[k] == content[i..j][k - i];
    }
  }

  /** A header between terminators, blank lines around it or not, has a line to itself. */
  lemma {:induction false} SpanHasLine(content: string, header: string, i: nat, j: nat)
    requires i <= j <= |content| && HeaderSpan(content, header, i, j) && Intact(content)
    requires header != "" && Trimmed(header) && '\n' !in header
    ensures FoundLine(content, header)
  {
    var p := HeaderWithin(content, header, i, j);
    var a, b := LineStart(content, p), LineEnd(content, p + |header|);
    SameHeader(content, header, i, j, p, a, b);
    forall k | a <= k < b ensures !Terminator(content[k]) {
      if p <= k < p + |header| { assert content[k] == header[k - p]; }
    }
    assert SearchedLine(content, a, b);
  }

  lemma {:induction false} LineHasSpan(content: string, header: string)
    requires FoundLine(content, header)
    ensures HasHeader(content, header)
  {
    var i, j :| 0 <= i <= j <= |content| && SearchedLine(content, i, j) && IsHeader(content[i..j], header);
    assert HeaderSpan(content, header, i, j);
  }

  /** There adding a server is refused exactly when its table is found. */
  lemma {:induction false} RefusedExactlyWhenFound(content: string, name: string)
    requires SafeName(name) && Intact(content)
    ensures HasHeader(content, TableHeader(name)) <==> ServerBlock(content, name).value.Some?
  {
    var header := TableHeader(name);
    FoundExactly(content, name);
    HeaderText(name);
    assert header[0] == '[';
    if HasHeader(content, header) {
      var i, j :| 0 <= i <= j <= |content| && HeaderSpan(content, header, i, j);
      SpanHasLine(content, header, i, j);
    }
    if FoundLine(content, header) { LineHasSpan(content, header); }
  }

  // ---- Texts whose lines end with carriage return and line feed ----

  predicate CrlfText(content: string) {
    && (content == "" || content[|content| - 1] == '\n')
    && forall k | 0 <= k < |content| && content[k] == '\n' :: k > 0 && content[k - 1] == '\r'
  }

  /** In such a text no server is found, whatever its tables: there is nothing to remove. */
  lemma {:induction false} CrlfHidesTables(content: string, name: string)
    requires SafeName(name) && CrlfText(content)
    ensures ServerBlock(content, name) == Ok(None) && RemoveServerBlock(content, name) == Ok(content)
  {
    var header := TableHeader(name);
    FoundExactly(content, name);
    assert header[0] == '[';
    if FoundLine(content, header) {
      var i, j :| 0 <= i <= j <= |content| && SearchedLine(content, i, j) && IsHeader(content[i..j], header);
      assert Trim("") == "";
      assert i < j;
      assert Terminator(content[j - 1]);
    }
  }

  /** Yet a server that has its table there is refused as existing. */
  lemma {:induction false} CrlfRefusesToo(name: string, server: Server)
    requires SafeName(name) && Given(server.command) != Given(server.url)
    ensures var content := TableHeader(name) + "\r\n";
            CrlfText(content) && Planned(content, server, name) == Err(AlreadyExists)
  {
    var header := TableHeader(name);
    var content := header + "\r\n";
    HeaderText(name);
    assert content[|header|] == '\r' && content[|header| + 1] == '\n';
    assert forall k | 0 <= k < |header| :: content[k] == header[k] != '\n';
    assert content[0..|header|] == header;
    assert HeaderSpan(content, header, 0, |header|);
  }
}
