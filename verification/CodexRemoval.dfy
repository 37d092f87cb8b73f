/** Removing a server's table from the Codex configuration, and what adding one table does to
    the others. The removal searches for the text it found and deletes the first occurrence, so
    it undoes an addition only if that text is found whole and is nowhere else: the proofs follow
    the text in lines, where the last line before the table and the blank lines around it need
    care, and by the ink it has, which tells that part of a table was left behind. */
module CodexRemoval {
  import opened Wrappers
  import opened Strings
  import opened StateKeys
  import opened TomlStrings
  import opened CodexConfig
  import opened CodexRoundTrip

  // ---- Non-blank lines ----

  predicate Blank(s: string) {
    forall i | 0 <= i < |s| :: IsSpace(s[i])
  }

  function Filled(parts: seq<string>): seq<string> {
    if parts == [] then []
    else (if Blank(parts[0]) then [] else [parts[0]]) + Filled(parts[1..])
  }

  /** The lines of a text that are more than whitespace, in order. */
  function NonBlank(text: string): seq<string> {
    Filled(Split(text, '\n'))
  }

  lemma {:induction false} FilledAppend(a: seq<string>, b: seq<string>)
    ensures Filled(a + b) == Filled(a) + Filled(b)
  {
    if a == [] {
      assert a + b == b;
    } else {
      assert (a + b)[1..] == a[1..] + b;
      FilledAppend(a[1..], b);
    }
  }

  /** Collapsing blank lines loses nothing else. */
  lemma {:induction false} CollapseKeeps(s: string, run: nat)
    ensures NonBlank(Collapse(s, run)) == NonBlank(s)
    ensures run < 2 || s == "" || s[0] != '\n' ==> Split(Collapse(s, run), '\n')[0] == Split(s, '\n')[0]
    decreases |s|
  {
    if s == "" {
    } else if s[0] == '\n' {
      var rest := Collapse(s[1..], run + 1);
      CollapseKeeps(s[1..], run + 1);
      SplitBreak(s[1..]);
      SplitBreak(rest);
      assert s == "\n" + s[1..];
    } else {
      var rest := Collapse(s[1..], 0);
      CollapseKeeps(s[1..], 0);
      SplitMore(s[0], s[1..]);
      SplitMore(s[0], rest);
      assert s == [s[0]] + s[1..];
      var parts, kept := Split(s[1..], '\n'), Split(rest, '\n');
      SameTail(Filled([parts[0]]), Filled(kept[1..]), Filled(parts[1..]));
    }
  }

  lemma {:induction false} SplitBreak(s: string)
    ensures Split("\n" + s, '\n') == [""] + Split(s, '\n') && NonBlank("\n" + s) == NonBlank(s)
  {
    assert ("\n" + s)[1..] == s;
    assert ([""] + Split(s, '\n'))[1..] == Split(s, '\n');
  }

  /** One more character in front only changes the first line. */
  lemma {:induction false} SplitMore(c: char, s: string)
    requires c != '\n'
    ensures var parts := Split(s, '\n');
            && Split([c] + s, '\n') == [[c] + parts[0]] + parts[1..]
            && NonBlank([c] + s) == Filled([[c] + parts[0]]) + Filled(parts[1..])
            && NonBlank(s) == Filled([parts[0]]) + Filled(parts[1..])
  {
    var parts := Split(s, '\n');
    assert ([c] + s)[1..] == s;
    FilledAppend([[c] + parts[0]], parts[1..]);
    FilledAppend([parts[0]], parts[1..]);
    assert parts == [parts[0]] + parts[1..];
  }

  lemma {:induction false} SeparatorIsBlank(current: string)
    ensures NonBlank(current + Separator(current)) == NonBlank(current)
  {
    var empty := "";
    if current == "" {
      assert current + Separator(current) == current;
    } else {
      NonBlankBreak(current, empty);
      NonBlankBreak(current, "\n");
      SplitBreak(empty);
      assert "\n" + empty == "\n" && current + "\n" + empty == current + "\n";
      assert current + "\n" + "\n" == current + "\n\n";
      assert NonBlank(empty) == [];
    }
  }

  lemma {:induction false} NonBlankBreak(a: string, b: string)
    ensures NonBlank(a + "\n" + b) == NonBlank(a) + NonBlank(b)
  {
    assert a + "\n" + b == a + ['\n'] + b;
    SplitAppend(a, b, '\n');
    FilledAppend(Split(a, '\n'), Split(b, '\n'));
  }

  /** Two continuations of one text with a last line that is not blank: equal non-blank lines
      mean equal first lines. */
  lemma {:induction false} SameStart(a: string, init: seq<string>, x: string, b: string, c: string)
    requires Split(a, '\n') == init + [x] && !Blank(x)
    requires NonBlank(a + b) == NonBlank(a + c)
    ensures Split(b, '\n')[0] == Split(c, '\n')[0]
  {
    StartOf(a, b, init, x);
    StartOf(a, c, init, x);
    SameTail(x, Split(b, '\n')[0], Split(c, '\n')[0]);
  }

  lemma {:induction false} SameTail<T>(x: seq<T>, b: seq<T>, c: seq<T>)
    requires x + b == x + c
    ensures b == c
  {
    assert (x + b)[|x|..] == b && (x + c)[|x|..] == c;
  }

  lemma {:induction false} StartOf(a: string, b: string, init: seq<string>, x: string)
    requires Split(a, '\n') == init + [x] && !Blank(x)
    ensures |Filled(init)| < |NonBlank(a + b)| && NonBlank(a + b)[|Filled(init)|] == x + Split(b, '\n')[0]
  {
    var right := Split(b, '\n');
    SplitConcat(a, b, '\n');
    assert Split(a + b, '\n') == init + [x + right[0]] + right[1..];
    FilledAppend(init + [x + right[0]], right[1..]);
    FilledAppend(init, [x + right[0]]);
    StillFilled(x, right[0]);
  }

  lemma {:induction false} StillFilled(x: string, more: string)
    requires !Blank(x)
    ensures Filled([x + more]) == [x + more]
  {
    var i :| 0 <= i < |x| && !IsSpace(x[i]);
    assert (x + more)[i] == x[i];
  }

  // ---- Headers ----

  lemma {:induction false} BlankBeforeHeader(x: string, header: string)
    requires Blank(x) && Trim(header) == header
    ensures Trim(x + header) == header
  {
    if x == "" {
      assert x + header == header;
    } else {
      assert (x + header)[1..] == x[1..] + header;
      BlankBeforeHeader(x[1..], header);
    }
  }

  lemma {:induction false} LastPieceAt(s: string)
    ensures var parts := Split(s, '\n'); var x := parts[|parts| - 1];
            && |x| <= |s| && s[|s| - |x|..] == x && (|x| == |s| || s[|s| - |x| - 1] == '\n')
  {
    var parts := Split(s, '\n');
    JoinSplit(s, '\n');
    if |parts| > 1 {
      JoinLast(parts);
    }
  }

  /** A text that passes the check has no line, before or in the separator, that is the header. */
  lemma {:induction false} NoHeaderAt(current: string, header: string, whole: string, i: nat, j: nat)
    requires !HasHeader(current, header) && whole == current + Separator(current)
    requires i < j < |whole| && (i == 0 || whole[i - 1] == '\n') && whole[j] == '\n' && whole[j - 1] != '\n'
    ensures !IsHeader(whole[i..j], header)
  {
    assert j <= |current|;
    assert current[i..j] == whole[i..j];
    assert i == 0 || current[i - 1] == whole[i - 1];
    assert j == |current| || current[j] == whole[j];
    assert !HeaderSpan(current, header, i, j);
  }

  /** Whatever precedes the header on its line is more than whitespace. */
  lemma {:induction false} NoHeaderLine(current: string, header: string, whole: string, a: string, rest: string)
    requires !HasHeader(current, header) && whole == current + Separator(current)
    requires header != "" && Trim(header) == header && '\n' !in header
    requires whole == a + header + "\n" + rest
    ensures var left := Split(a, '\n'); !Blank(left[|left| - 1])
  {
    var x, i, j := LineOf(a, header, rest, whole);
    NoBlankBefore(current, header, whole, x, i, j);
  }

  lemma {:induction false} LineOf(a: string, header: string, rest: string, whole: string)
    returns (x: string, i: nat, j: nat)
    requires header != "" && '\n' !in header && whole == a + header + "\n" + rest
    ensures x == Split(a, '\n')[|Split(a, '\n')| - 1]
    ensures i < j < |whole| && (i == 0 || whole[i - 1] == '\n') && whole[j] == '\n' && whole[j - 1] != '\n'
    ensures whole[i..j] == x + header
  {
    x := Split(a, '\n')[|Split(a, '\n')| - 1];
    LastPieceAt(a);
    HeaderPosition(a, header, rest, x, whole);
    i, j := |a| - |x|, |a| + |header|;
  }

  lemma {:induction false} NoBlankBefore(current: string, header: string, whole: string, x: string, i: nat, j: nat)
    requires !HasHeader(current, header) && whole == current + Separator(current) && Trim(header) == header
    requires i < j < |whole| && (i == 0 || whole[i - 1] == '\n') && whole[j] == '\n' && whole[j - 1] != '\n'
    requires whole[i..j] == x + header
    ensures !Blank(x)
  {
    NoHeaderAt(current, header, whole, i, j);
    if Blank(x) { BlankBeforeHeader(x, header); }
  }

  lemma {:induction false} HeaderPosition(a: string, header: string, rest: string, x: string, whole: string)
    requires |x| <= |a| && a[|a| - |x|..] == x && header != "" && '\n' !in header
    requires whole == a + header + "\n" + rest
    ensures var i, j := |a| - |x|, |a| + |header|;
            && j < |whole| && whole[i..j] == x + header && whole[j] == '\n' && whole[j - 1] != '\n'
            && (i > 0 ==> whole[i - 1] == a[i - 1])
  {
    assert whole[..|a| + |header|] == a + header;
    assert (a + header)[|a| - |x|..] == x + header;
    assert whole[|a| + |header| - 1] == header[|header| - 1] && header[|header| - 1] in header;
  }

  // ---- The table occurs once ----

  predicate Occurs(t: string, s: string) {
    exists k | 0 <= k <= |s| :: t <= s[k..]
  }

  /** The pieces of a table text are its lines. */
  lemma {:induction false} TablePieces(lines: seq<string>, block: string)
    requires lines != [] && block == Join(lines, '\n') + "\n" && forall i | 0 <= i < |lines| :: '\n' !in lines[i]
    ensures Split(block, '\n') == lines + [""]
  {
    var empty := "";
    SplitJoin(lines, '\n');
    SplitAppend(Join(lines, '\n'), empty, '\n');
    assert Join(lines, '\n') + ['\n'] + empty == block;
  }

  /** A shape of text that begins with its header line and has no second one. */
  ghost predicate Headed(block: string, header: string) {
    && header != "" && '\n' !in header && header + "\n" <= block && block[|block| - 1] == '\n'
    && forall i | 0 < i < |Split(block, '\n')| :: Split(block, '\n')[i] != header
  }

  lemma {:induction false} OneHeaderLine(block: string, header: string, a: string, rest: string)
    requires Headed(block, header)
    ensures block != a + "\n" + (header + "\n" + rest)
  {
    var left, right := Split(a, '\n'), Split(rest, '\n');
    var tail := header + "\n" + rest;
    assert a + "\n" + tail == a + ['\n'] + tail && tail == header + ['\n'] + rest;
    SplitAppend(a, tail, '\n');
    SplitAppend(header, rest, '\n');
    SplitPlain(header, '\n');
    assert Split(a + "\n" + tail, '\n')[|left|] == header;
  }

  /** Such a text cannot overlap with itself at the start of a line. */
  lemma {:induction false} NoOverlap(block: string, header: string, q: nat)
    requires Headed(block, header) && 0 < q < |block| && block[q - 1] == '\n'
    ensures !(block[q..] <= block)
  {
    if block[q..] <= block {
      var rest := TailIsHeaded(block, header, q);
      OneHeaderLine(block, header, block[..q - 1], rest);
    }
  }

  lemma {:induction false} TailIsHeaded(block: string, header: string, q: nat) returns (rest: string)
    requires header + "\n" <= block && '\n' !in header && block[|block| - 1] == '\n'
    requires 0 < q < |block| && block[q - 1] == '\n' && block[q..] <= block
    ensures block == block[..q - 1] + "\n" + (header + "\n" + rest)
  {
    var tail, n := block[q..], |header|;
    var start := header + "\n";
    assert block[..n + 1] == start;
    assert tail[|tail| - 1] == block[|tail| - 1] == '\n';
    assert forall k | 0 <= k < n :: block[k] == start[k] == header[k] && header[k] in header;
    assert |tail| > n;
    assert tail[..n + 1] == block[..n + 1];
    rest := tail[n + 1..];
    assert tail == start + rest;
    assert block == block[..q - 1] + "\n" + tail;
  }

  /** In front of an appended table, ending in a line feed, the table occurs only where it ends too. */
  lemma {:induction false} OccursInFront(front: string, block: string, header: string, p: nat)
    requires Headed(block, header) && p < |front| && front[|front| - 1] == '\n'
    requires block <= (front + block)[p..]
    ensures p + |block| <= |front|
  {
    var text, n := front + block, |front|;
    if p + |block| > n {
      var q := n - p;
      assert text[p..][..|block|] == block;
      assert block[q - 1] == text[n - 1];
      assert block[q..] == text[n..p + |block|] == block[..|block| - q];
      NoOverlap(block, header, q);
    }
  }

  lemma {:induction false} OccursInWhole(front: string, block: string) returns (k: nat)
    requires block != "" && Occurs(block, front)
    ensures k < |front| && block <= (front + block)[k..]
  {
    k :| 0 <= k <= |front| && block <= front[k..];
    assert (front + block)[k..] == front[k..] + block;
  }

  lemma {:induction false} FirstIsEarliest(s: string, t: string, k: nat)
    requires k <= |s| && t <= s[k..]
    ensures IndexOf(s, t).Some? && IndexOf(s, t).value <= k
    ensures RemoveFirst(s, t) == s[..IndexOf(s, t).value] + s[IndexOf(s, t).value + |t|..]
  {
  }

  /** The search finds the appended text, or an earlier place that begins with it. */
  lemma {:induction false} IndexInAppended(front: string, block: string) returns (p: nat)
    requires block != ""
    ensures p <= |front| && block <= (front + block)[p..]
    ensures RemoveFirst(front + block, block) == (front + block)[..p] + (front + block)[p + |block|..]
    ensures Occurs(block, front) ==> p < |front|
  {
    var text := front + block;
    assert text[|front|..] == block;
    FirstIsEarliest(text, block, |front|);
    p := IndexOf(text, block).value;
    if Occurs(block, front) {
      var k := OccursInWhole(front, block);
      FirstIsEarliest(text, block, k);
    }
  }

  lemma {:induction false} CutWithin(front: string, block: string, p: nat)
    requires p + |block| <= |front| && block <= (front + block)[p..]
    ensures block <= front[p..] && Occurs(block, front)
    ensures (front + block)[..p] + (front + block)[p + |block|..] == front[..p] + front[p + |block|..] + block
  {
    assert (front + block)[p..] == front[p..] + block;
  }

  lemma {:induction false} CutAtEnd(front: string, block: string)
    ensures (front + block)[..|front|] + (front + block)[|front| + |block|..] == front
  {
  }

  /** What removing the first occurrence of an appended table comes to. */
  lemma {:induction false} FirstOccurrence(front: string, block: string, header: string) returns (p: nat)
    requires Headed(block, header) && (front == "" || front[|front| - 1] == '\n')
    ensures p <= |front| && (p < |front| <==> Occurs(block, front))
    ensures p < |front| ==> p + |block| <= |front| && block <= front[p..]
                            && RemoveFirst(front + block, block) == front[..p] + front[p + |block|..] + block
    ensures p == |front| ==> RemoveFirst(front + block, block) == front
  {
    p := IndexInAppended(front, block);
    if p < |front| {
      OccursInFront(front, block, header, p);
      CutWithin(front, block, p);
    } else {
      CutAtEnd(front, block);
    }
  }

  // ---- Removal undoes planning ----

  lemma {:induction false} SortKeepsLength(keys: seq<string>)
    ensures |SortStrings(keys)| == |keys|
  {
    SortKeepsMultiset(keys);
    assert |multiset(SortStrings(keys))| == |multiset(keys)|;
  }

  lemma {:induction false} LastServerLine(server: Server)
    requires Given(server.command) != Given(server.url)
    ensures var body := ServerLines(server); body != [] && body[|body| - 1] != ""
  {
  }

  lemma {:induction false} LastEnvLine(server: Server, name: string)
    requires server.env != []
    ensures var env := EnvTableLines(server, name); env != [] && env[|env| - 1] != ""
  {
    var keys := SortStrings(Keys(server.env));
    SortKeepsLength(Keys(server.env));
    var lines := EnvLines(keys, server.env);
    assert lines[|keys| - 1] == keys[|keys| - 1] + " = " + TomlString(ValueOf(server.env, keys[|keys| - 1]));
  }

  lemma {:induction false} LastLine(server: Server, name: string)
    requires Given(server.command) != Given(server.url)
    ensures var lines := TableLines(server, name); |lines| > 1 && lines[|lines| - 1] != ""
  {
    LastServerLine(server);
    if server.env != [] { LastEnvLine(server, name); }
    LastOfThree([TableHeader(name)], ServerLines(server), EnvTableLines(server, name));
  }

  lemma {:induction false} LastOfThree(a: seq<string>, b: seq<string>, c: seq<string>)
    requires |a| == 1 && b != [] && b[|b| - 1] != "" && (c != [] ==> c[|c| - 1] != "")
    ensures var lines := a + (b + c); |lines| > 1 && lines[|lines| - 1] != ""
  {
  }

  lemma {:induction false} TableIsHeaded(server: Server, name: string)
    requires SafeName(name) && FirstBadKey(SortStrings(Keys(server.env))).None?
    requires Given(server.command) != Given(server.url)
    ensures Headed(TableText(server, name), TableHeader(name))
    ensures var block := TableText(server, name);
            |block| >= 2 && block[|block| - 2] != '\n' && |block| > |TableHeader(name)| + 1
  {
    var lines := TableLines(server, name);
    var header, prefix, block := TableHeader(name), TablePrefix(name), TableText(server, name);
    assert lines[1..] == BodyLines(server, name);
    BodyIsTableLines(server, name);
    HeaderText(name);
    LastLine(server, name);
    HeadedLines(lines, header, prefix, block);
  }

  lemma {:induction false} OtherEnding(header: string, prefix: string, line: string)
    requires header == prefix + "]" && prefix + "." <= line
    ensures line != header
  {
    assert line[|prefix|] == '.' && header[|prefix|] == ']';
  }

  lemma {:induction false} HeadedLines(lines: seq<string>, header: string, prefix: string, block: string)
    requires |lines| > 1 && lines[0] == header == prefix + "]" && '\n' !in header && lines[|lines| - 1] != ""
    requires exists plain :: AllTableLines(lines[1..], prefix, plain)
    requires "[" <= header && block == Join(lines, '\n') + "\n"
    ensures Headed(block, header) && |block| >= 2 && block[|block| - 2] != '\n' && |block| > |header| + 1
  {
    assert forall i | 0 < i < |lines| :: lines[i] == lines[1..][i - 1];
    TablePieces(lines, block);
    JoinFirst(lines);
    JoinLast(lines);
    var last := lines[|lines| - 1];
    assert block[|block| - 2] == last[|last| - 1];
    forall i | 0 < i < |lines| ensures lines[i] != header {
      if prefix + "." <= lines[i] { OtherEnding(header, prefix, lines[i]); }
    }
  }

  lemma {:induction false} JoinFirst(lines: seq<string>)
    requires |lines| > 1
    ensures lines[0] + "\n" <= Join(lines, '\n')
  {
  }

  lemma {:induction false} FirstLinesDiffer(current: string, header: string, a: string, rest: string, r: string)
    requires !HasHeader(current, header) && header != "" && Trim(header) == header && '\n' !in header
    requires current + Separator(current) == a + (header + "\n" + (rest + r))
    requires rest != "" && rest[|rest| - 1] == '\n' && r != "" && r[|r| - 1] == '\n'
    ensures Split(r + (header + "\n" + rest), '\n')[0] != Split(header + "\n" + (rest + r), '\n')[0]
  {
    FirstLine(r, header + "\n" + rest);
    FirstLineIs(header, rest + r);
    var before := a + header + "\n" + rest;
    assert a + (header + "\n" + (rest + r)) == before + r && before[|before| - 1] == '\n';
    LineInFront(current, header, before, r);
  }

  /** Moving the text a table quotes behind what follows it damages the line it was quoted on. */
  lemma {:induction false} QuotedLineDiffers(current: string, header: string, a: string, rest: string, r: string)
    requires !HasHeader(current, header) && header != "" && Trim(header) == header && '\n' !in header
    requires current + Separator(current) == a + (header + "\n" + (rest + r))
    requires rest != "" && rest[|rest| - 1] == '\n' && r != "" && r[|r| - 1] == '\n'
    ensures NonBlank(a + (r + (header + "\n" + rest))) != NonBlank(a + (header + "\n" + (rest + r)))
  {
    var moved, kept := r + (header + "\n" + rest), header + "\n" + (rest + r);
    assert a + kept == a + header + "\n" + (rest + r);
    NoHeaderLine(current, header, current + Separator(current), a, rest + r);
    FirstLinesDiffer(current, header, a, rest, r);
    if NonBlank(a + moved) == NonBlank(a + kept) {
      var left := Split(a, '\n');
      SameStart(a, left[..|left| - 1], left[|left| - 1], moved, kept);
    }
  }

  /** An earlier occurrence is taken for the table: the line it is quoted on loses its end. */
  lemma {:induction false} EarlierIsDamaged(current: string, header: string, block: string, p: nat)
    requires !HasHeader(current, header) && Headed(block, header) && Trim(header) == header
    requires |block| >= 2 && block[|block| - 2] != '\n' && |block| > |header| + 1
    requires var front := current + Separator(current);
             p + |block| <= |front| && block <= front[p..]
    ensures var front := current + Separator(current);
            NonBlank(front[..p] + front[p + |block|..] + block) != NonBlank(current)
  {
    var front := current + Separator(current);
    var a, r, rest := front[..p], front[p + |block|..], block[|header| + 1..];
    EndOfFront(current, block, p);
    SeparatorIsBlank(current);
    Pieces(front, header, block, p);
    QuotedLineDiffers(current, header, a, rest, r);
    assert a + r + block == a + (r + (header + "\n" + rest));
  }

  lemma {:induction false} Pieces(front: string, header: string, block: string, p: nat)
    requires header + "\n" <= block && p + |block| <= |front| && block <= front[p..]
    ensures var rest := block[|header| + 1..];
            block == header + "\n" + rest && front == front[..p] + (header + "\n" + (rest + front[p + |block|..]))
  {
    assert front[p..] == block + front[p + |block|..];
  }

  lemma {:induction false} EndOfFront(current: string, block: string, p: nat)
    requires |block| >= 2 && block[|block| - 2] != '\n'
    requires var front := current + Separator(current);
             p + |block| <= |front| && block <= front[p..]
    ensures var r := (current + Separator(current))[p + |block|..]; r != "" && r[|r| - 1] == '\n'
  {
    var front := current + Separator(current);
    assert front[|front| - 1] == '\n' && front[|front| - 2] == '\n';
    assert front[p..][|block| - 2] == front[p + |block| - 2];
  }

  lemma {:induction false} FirstLine(r: string, block: string)
    requires r != "" && r[|r| - 1] == '\n'
    ensures Split(r + block, '\n')[0] == Split(r, '\n')[0]
  {
    var a, empty := r[..|r| - 1], "";
    assert r == a + ['\n'] + empty && r + block == a + ['\n'] + block;
    SplitAppend(a, block, '\n');
    SplitAppend(a, empty, '\n');
  }

  lemma {:induction false} FirstLineIs(header: string, rest: string)
    requires '\n' !in header
    ensures Split(header + "\n" + rest, '\n')[0] == header
  {
    assert header + "\n" + rest == header + ['\n'] + rest;
    SplitPlain(header, '\n');
    SplitAppend(header, rest, '\n');
  }

  /** No line in front of the table is the header line. */
  lemma {:induction false} NoPlainHeader(current: string, header: string, a: string, rest: string)
    requires !HasHeader(current, header) && header != "" && Trim(header) == header && '\n' !in header
    requires a == "" || a[|a| - 1] == '\n'
    ensures current + Separator(current) != a + header + "\n" + rest
  {
    LastPieceAt(a);
    if current + Separator(current) == a + header + "\n" + rest {
      NoHeaderLine(current, header, current + Separator(current), a, rest);
    }
  }

  lemma {:induction false} LineInFront(current: string, header: string, a: string, r: string)
    requires !HasHeader(current, header) && header != "" && Trim(header) == header && '\n' !in header
    requires current + Separator(current) == a + r && (a == "" || a[|a| - 1] == '\n') && r != "" && r[|r| - 1] == '\n'
    ensures Split(r, '\n')[0] != header
  {
    FirstPiece(r, header, '\n');
    if header + ['\n'] <= r {
      var rest := r[|header| + 1..];
      NoPlainHeader(current, header, a, rest);
      HeaderThenRest(a, header, r, rest);
    }
  }

  lemma {:induction false} HeaderThenRest(a: string, header: string, r: string, rest: string)
    requires header + ['\n'] <= r && rest == r[|header| + 1..]
    ensures a + r == a + header + "\n" + rest
  {
    assert r == header + "\n" + rest;
  }

  // ---- A table found only in part ----

  /** The characters of a text that are more than whitespace. */
  function Ink(s: string): nat {
    if s == "" then 0 else (if IsSpace(s[0]) then 0 else 1) + Ink(s[1..])
  }

  lemma {:induction false} InkAppend(a: string, b: string)
    ensures Ink(a + b) == Ink(a) + Ink(b)
  {
    if a == "" {
      assert a + b == b;
    } else {
      assert (a + b)[1..] == a[1..] + b;
      InkAppend(a[1..], b);
    }
  }

  lemma {:induction false} BlankHasNoInk(s: string)
    requires Blank(s)
    ensures Ink(s) == 0
  {
    if s != "" { BlankHasNoInk(s[1..]); }
  }

  function InkOfAll(parts: seq<string>): nat {
    if parts == [] then 0 else Ink(parts[0]) + InkOfAll(parts[1..])
  }

  lemma {:induction false} InkJoined(parts: seq<string>)
    ensures Ink(Join(parts, '\n')) == InkOfAll(parts)
  {
    if |parts| > 1 {
      InkJoined(parts[1..]);
      InkAppend(parts[0] + ['\n'], Join(parts[1..], '\n'));
      InkAppend(parts[0], ['\n']);
      BlankHasNoInk(['\n']);
    } else if |parts| == 1 {
      assert parts[1..] == [];
    }
  }

  lemma {:induction false} InkFilled(parts: seq<string>)
    ensures InkOfAll(Filled(parts)) == InkOfAll(parts)
  {
    if parts != [] {
      InkFilled(parts[1..]);
      if Blank(parts[0]) {
        BlankHasNoInk(parts[0]);
        assert [] + Filled(parts[1..]) == Filled(parts[1..]);
      } else {
        assert ([parts[0]] + Filled(parts[1..]))[1..] == Filled(parts[1..]);
      }
    }
  }

  /** The lines that are more than whitespace carry all the ink. */
  lemma {:induction false} InkOfNonBlank(text: string)
    ensures Ink(text) == InkOfAll(NonBlank(text))
  {
    JoinSplit(text, '\n');
    InkJoined(Split(text, '\n'));
    InkFilled(Split(text, '\n'));
  }

  lemma {:induction false} InkCut(a: string, t: string, b: string)
    ensures Ink(a + (t + b)) == Ink(a + b) + Ink(t)
  {
    InkAppend(a, t + b);
    InkAppend(t, b);
    InkAppend(a, b);
  }

  lemma {:induction false} CutAt(s: string, t: string, at: nat)
    requires at <= |s| && t <= s[at..]
    ensures s == s[..at] + (t + s[at + |t|..])
  {
    assert s[at..] == t + s[at + |t|..];
  }

  lemma {:induction false} InkRemoved(s: string, t: string)
    ensures Ink(RemoveFirst(s, t)) + Ink(t) >= Ink(s)
  {
    var found := IndexOf(s, t);
    if found.Some? {
      CutAt(s, t, found.value);
      InkCut(s[..found.value], t, s[found.value + |t|..]);
    }
  }

  /** What the search keeps of a line that a separator cuts has less ink. */
  lemma {:induction false} InkOfLine(line: string)
    requires line == "" || !IsSpace(line[0])
    ensures Ink(AfterTerminator(line) + "\n") <= Ink(line)
    ensures !Intact(line) ==> Ink(AfterTerminator(line) + "\n") < Ink(line)
  {
    AfterTerminatorIsSuffix(line);
    var cut := |line| - |AfterTerminator(line)|;
    assert line == line[..cut] + AfterTerminator(line);
    InkAppend(line[..cut], AfterTerminator(line));
    InkAppend(AfterTerminator(line), "\n");
    BlankHasNoInk("\n");
    if !Intact(line) { assert line[..cut][0] == line[0]; }
  }

  lemma {:induction false} InkOfEnded(lines: seq<string>, end: nat)
    requires end <= |lines| && forall i | 0 <= i < |lines| :: lines[i] == "" || !IsSpace(lines[i][0])
    ensures |Ended(lines)| == |lines|
    ensures Ink(Concat(Ended(lines)[..end])) <= InkOfAll(lines)
    ensures (exists i | 0 <= i < |lines| :: !Intact(lines[i])) ==> Ink(Concat(Ended(lines)[..end])) < InkOfAll(lines)
  {
    EndedLength(lines);
    if lines == [] {
      assert Ended(lines)[..end] == [];
    } else {
      var init, last := lines[..|lines| - 1], lines[|lines| - 1];
      assert lines == init + [last];
      InkOfLast(init, last);
      InkOfLine(last);
      if end < |lines| {
        InkOfEnded(init, end);
        EndedPrefix(init, last, end);
        assert !Intact(last) ==> Ink(last) > 0;
      } else {
        InkOfEnded(init, |init|);
        EndedPrefix(init, last, |init|);
        WholeEnded(init, last);
        InkAppend(Concat(Ended(init)), AfterTerminator(last) + "\n");
      }
    }
  }

  lemma {:induction false} EndedPrefix(init: seq<string>, last: string, end: nat)
    requires end <= |init|
    ensures |Ended(init)| == |init| && |Ended(init + [last])| == |init| + 1
    ensures Ended(init + [last])[..end] == Ended(init)[..end]
  {
    EndedLength(init);
    assert (init + [last])[..|init|] == init;
  }

  lemma {:induction false} WholeEnded(init: seq<string>, last: string)
    ensures |Ended(init)| == |init| && |Ended(init + [last])| == |init| + 1
    ensures Concat(Ended(init + [last])[..|init| + 1]) == Concat(Ended(init)) + (AfterTerminator(last) + "\n")
    ensures Ended(init)[..|init|] == Ended(init)
  {
    EndedPrefix(init, last, |init|);
    var written := Ended(init + [last]);
    assert (init + [last])[..|init|] == init && written == Ended(init) + [AfterTerminator(last) + "\n"];
    assert written[..|init| + 1] == written && written[..|init|] == Ended(init);
  }

  lemma {:induction false} InkOfLast(init: seq<string>, last: string)
    ensures InkOfAll(init + [last]) == InkOfAll(init) + Ink(last)
  {
    if init == [] {
      assert [last][1..] == [];
    } else {
      assert (init + [last])[1..] == init[1..] + [last];
      InkOfLast(init[1..], last);
    }
  }

  /** A value with a separator: the search misses part of a line, and the removal leaves ink behind. */
  lemma {:induction false} CutTableStays(current: string, server: Server, name: string, text: string)
    requires Planned(current, server, name) == Ok(text) && !PlainValues(server)
    ensures RemoveServerBlock(text, name).Ok?
    ensures Ink(RemoveServerBlock(text, name).value) > Ink(current)
  {
    var block := FoundInk(current, server, name, text);
    InkAppend(current, Separator(current));
    InkLeft(current + Separator(current), TableText(server, name), block);
    RemovedText(text, name, block);
  }

  lemma {:induction false} RemovedText(content: string, name: string, block: string)
    requires ServerBlock(content, name) == Ok(Some(block))
    ensures RemoveServerBlock(content, name) == Ok(Collapse(RemoveFirst(content, block), 0))
  {
  }

  lemma {:induction false} InkLeft(front: string, table: string, block: string)
    requires Ink(block) < Ink(table)
    ensures Ink(Collapse(RemoveFirst(front + table, block), 0)) > Ink(front)
  {
    var left := RemoveFirst(front + table, block);
    InkRemoved(front + table, block);
    InkAppend(front, table);
    CollapseKeeps(left, 0);
    InkOfNonBlank(Collapse(left, 0));
    InkOfNonBlank(left);
  }

  lemma {:induction false} FoundInk(current: string, server: Server, name: string, text: string) returns (block: string)
    requires Planned(current, server, name) == Ok(text) && !PlainValues(server)
    ensures ServerBlock(text, name) == Ok(Some(block)) && Ink(block) < Ink(TableText(server, name))
    ensures text == current + Separator(current) + TableText(server, name)
  {
    var header, prefix, lines := TableHeader(name), TablePrefix(name), TableLines(server, name);
    PlannedLines(current, server, name, text);
    assert lines[1..] == BodyLines(server, name);
    BodyIsTableLines(server, name);
    HeaderText(name);
    forall k | 0 <= k < |Ended(Before(current))| ensures !IsHeader(Ended(Before(current))[k], header) {
      NoEarlierHeader(current, header, k);
    }
    WholeTable(lines, header, prefix, false);
    BlockAfter(Ended(Before(current)), Ended(lines), header, prefix);
    var end := BlockEnd(Ended(lines), 1, prefix);
    block := Concat(Ended(lines)[..end]);
    TableInk(lines, prefix, end, block);
  }

  lemma {:induction false} TableInk(lines: seq<string>, prefix: string, end: nat, block: string)
    requires lines != [] && lines[0] != "" && Trimmed(lines[0]) && AllTableLines(lines[1..], prefix, false)
    requires end <= |Ended(lines)| && block == Concat(Ended(lines)[..end])
    ensures Ink(block) < Ink(Join(lines, '\n') + "\n")
  {
    EndedLength(lines);
    forall i | 0 <= i < |lines| ensures lines[i] == "" || !IsSpace(lines[i][0]) {
      assert i > 0 ==> lines[i] == lines[1..][i - 1];
    }
    var k :| 0 <= k < |lines[1..]| && !Intact(lines[1..][k]);
    assert lines[k + 1] == lines[1..][k];
    InkOfEnded(lines, end);
    InkJoined(lines);
    InkAppend(Join(lines, '\n'), "\n");
  }

  /** Planning and then removing gives back every line that is more than whitespace, in order,
      exactly when no value has a line or paragraph separator and the text of the new table is
      nowhere in the file already. */
  lemma {:induction false} RemovalRestoresExactly(current: string, server: Server, name: string, text: string)
    requires Planned(current, server, name) == Ok(text)
    ensures RemoveServerBlock(text, name).Ok?
    ensures NonBlank(RemoveServerBlock(text, name).value) == NonBlank(current)
            <==> PlainValues(server) && !Occurs(TableText(server, name), current + Separator(current))
    ensures PlainValues(server) && !Occurs(TableText(server, name), current + Separator(current)) ==>
              RemoveServerBlock(text, name) == Ok(Collapse(current + Separator(current), 0))
  {
    if PlainValues(server) {
      WholeTableRemoved(current, server, name, text);
    } else {
      CutTableStays(current, server, name, text);
      InkOfNonBlank(current);
      InkOfNonBlank(RemoveServerBlock(text, name).value);
    }
  }

  lemma {:induction false} WholeTableRemoved(current: string, server: Server, name: string, text: string)
    requires Planned(current, server, name) == Ok(text) && PlainValues(server)
    ensures RemoveServerBlock(text, name).Ok?
    ensures NonBlank(RemoveServerBlock(text, name).value) == NonBlank(current)
            <==> !Occurs(TableText(server, name), current + Separator(current))
    ensures !Occurs(TableText(server, name), current + Separator(current)) ==>
              RemoveServerBlock(text, name) == Ok(Collapse(current + Separator(current), 0))
  {
    var front, block, header := current + Separator(current), TableText(server, name), TableHeader(name);
    ExtractsExactly(current, server, name, text);
    HeaderText(name);
    TableIsHeaded(server, name);
    assert text == front + block;
    RemovedText(text, name, block);
    FirstRemoved(current, header, block);
  }

  lemma {:induction false} FirstRemoved(current: string, header: string, block: string)
    requires !HasHeader(current, header) && Headed(block, header) && Trim(header) == header
    requires |block| >= 2 && block[|block| - 2] != '\n' && |block| > |header| + 1
    ensures var front := current + Separator(current);
            var removed := RemoveFirst(front + block, block);
            && (NonBlank(Collapse(removed, 0)) == NonBlank(current) <==> !Occurs(block, front))
            && (!Occurs(block, front) ==> removed == front)
  {
    var front := current + Separator(current);
    var p := FirstOccurrence(front, block, header);
    CollapseKeeps(RemoveFirst(front + block, block), 0);
    if p < |front| {
      EarlierIsDamaged(current, header, block, p);
    } else {
      SeparatorIsBlank(current);
    }
  }

  // ---- A table quoted in a comment ----

  lemma {:induction false} DroppedAreSpaces(s: string, k: nat)
    requires k < |s| - |TrimStart(s)|
    ensures IsSpace(s[k])
  {
    TrimStartIsSuffix(s);
    if s != "" && IsSpace(s[0]) && k > 0 {
      TrimStartIsSuffix(s[1..]);
      DroppedAreSpaces(s[1..], k - 1);
    }
  }

  /** The only bracket stands behind a comment sign, so no line consists of a header. */
  lemma {:induction false} CommentHasNoHeader(current: string, header: string)
    requires |current| > 2 && current[0] == '#' && current[1] == ' '
    requires header != "" && header[0] == '[' && forall k | 0 <= k < |current| && current[k] == '[' :: k == 2
    ensures !HasHeader(current, header)
  {
    forall i, j | 0 <= i <= j <= |current| ensures !HeaderSpan(current, header, i, j) {
      var t := current[i..j];
      TrimStartIsSuffix(t);
      TrimEndKeepsFirst(TrimStart(t));
      var d := |t| - |TrimStart(t)|;
      forall k: nat | k < d ensures IsSpace(t[k]) { DroppedAreSpaces(t, k); }
      if Trim(t) == header {
        assert TrimStart(t)[0] == t[d] == current[i + d];
      }
    }
  }

  lemma {:induction false} BracketFirst(start: string, name: string, header: string)
    requires '[' !in start && SafeName(name) && header == "[" + start + TomlString(name) + "]"
    ensures header != "" && header[0] == '[' && '[' !in header[1..]
  {
    SafeIsVerbatim(name);
    assert header[1..] == start + TomlString(name) + "]";
  }

  lemma {:induction false} NoBracket(start: string, command: string)
    requires '[' !in start && SafeName(command)
    ensures '[' !in start + TomlString(command)
  {
    SafeIsVerbatim(command);
  }

  lemma {:induction false} TwoLines(header: string, line: string, block: string)
    requires header != "" && '[' !in header[1..] && '[' !in line && block == header + "\n" + line + "\n"
    ensures forall k | 0 <= k < |block| && block[k] == '[' :: k == 0
  {
    assert forall k | 0 < k < |header| :: header[k] == header[1..][k - 1];
    assert block[1..] == header[1..] + "\n" + line + "\n";
  }

  lemma {:induction false} JoinTwo(header: string, line: string)
    ensures Join([header, line], '\n') == header + "\n" + line
  {
    assert [header, line][1..] == [line];
  }

  /** The smallest table: a header and a command. */
  lemma {:induction false} SmallTable(name: string, command: string)
    requires SafeName(name) && SafeName(command)
    ensures var block := TableText(Server(Some(command), None, [], []), name);
            && block != "" && forall k | 0 <= k < |block| && block[k] == '[' :: k == 0
  {
    var server := Server(Some(command), None, [], []);
    var header, line := TableHeader(name), "command = " + TomlString(command);
    var start, rest := "mcp_servers.", "command = ";
    assert "[mcp_servers." == "[" + start;
    BracketFirst(start, name, header);
    NoBracket(rest, command);
    assert TableLines(server, name) == [header, line];
    JoinTwo(header, line);
    TwoLines(header, line, TableText(server, name));
  }

  lemma {:induction false} QuotedOccurs(sign: string, block: string, separator: string)
    ensures Occurs(block, sign + block + separator)
  {
    assert (sign + block + separator)[|sign|..] == block + separator;
  }

  /** A file that shows the table to be added in a comment is accepted, and damaged by the removal. */
  lemma {:induction false} QuotedTableIsDamaged(name: string, command: string)
    requires SafeName(name) && SafeName(command)
    ensures var server := Server(Some(command), None, [], []);
            var current := "# " + TableText(server, name);
            var text := Planned(current, server, name);
            text.Ok? && RemoveServerBlock(text.value, name).Ok?
            && NonBlank(RemoveServerBlock(text.value, name).value) != NonBlank(current)
  {
    var server := Server(Some(command), None, [], []);
    var block := TableText(server, name);
    var current := "# " + block;
    SmallTable(name, command);
    CommentHasNoHeader(current, TableHeader(name));
    assert PlainValues(server);
    QuotedOccurs("# ", block, Separator(current));
    RemovalRestoresExactly(current, server, name, current + Separator(current) + block);
  }

  // ---- Other servers ----

  /** The lines in front of an appended table, next to those of the file as it was: complete
      now, with at least one blank line more. */
  ghost predicate Continues(before: seq<string>, after: seq<string>) {
    && |before| < |after|
    && (forall k | 0 <= k < |before| :: after[k] == before[k] || (k == |before| - 1 && after[k] == before[k] + "\n"))
    && (forall k | |before| <= k < |after| :: after[k] == "\n")
  }

  lemma {:induction false} EndedOne(part: string)
    ensures Ended([part]) == [AfterTerminator(part) + "\n"]
  {
    assert [part][..0] == [];
  }

  lemma {:induction false} LinesContinue(current: string)
    requires current != ""
    ensures Continues(LinesOf(current), Ended(Before(current)))
  {
    var parts := Split(current, '\n');
    var init, last := parts[..|parts| - 1], parts[|parts| - 1];
    assert parts == init + [last];
    EndedAppend(init, [last]);
    EndedOne(last);
    if current[|current| - 1] == '\n' {
      LastPieceAt(current);
      assert last == "" && AfterTerminator(last) == "";
    } else {
      var empty := "";
      EndedAppend(parts, [empty]);
      EndedOne(empty);
    }
  }

  lemma {:induction false} BlockEndIs(lines: seq<string>, from: nat, end: nat, prefix: string)
    requires from <= end <= |lines| && forall k | from <= k < end :: !EndsBlock(lines[k], prefix)
    requires end < |lines| ==> EndsBlock(lines[end], prefix)
    ensures BlockEnd(lines, from, prefix) == end
  {
  }

  lemma {:induction false} SameMeaning(before: seq<string>, after: seq<string>, k: nat)
    requires Continues(before, after) && k < |before|
    ensures Trim(after[k]) == Trim(before[k])
  {
    TrimBreak(before[k]);
  }

  /** The header is where it was. */
  lemma {:induction false} SameHeader(before: seq<string>, after: seq<string>, added: seq<string>, header: string)
    requires Continues(before, after) && HeaderAt(before, header) < |before|
    ensures forall k | 0 <= k < |before| :: Trim((after + added)[k]) == Trim(before[k])
    ensures HeaderAt(after + added, header) == HeaderAt(before, header)
  {
    var whole := after + added;
    forall k | 0 <= k < |before| ensures Trim(whole[k]) == Trim(before[k]) {
      SameMeaning(before, after, k);
      assert whole[k] == after[k];
    }
    HeaderIsAt(whole, HeaderAt(before, header), header);
  }

  /** A table in front of another one keeps its text when more is appended; the last table of
      the file runs on into the blank line that separates it from the new one. */
  lemma {:induction false} BlockContinues(before: seq<string>, after: seq<string>, added: seq<string>, header: string,
                                          prefix: string)
    requires Continues(before, after) && header != "" && prefix != "" && added != [] && EndsBlock(added[0], prefix)
    requires HeaderAt(before, header) < |before|
    ensures BlockOf(after + added, header, prefix) == BlockOf(before, header, prefix)
            <==> BlockEnd(before, HeaderAt(before, header) + 1, prefix) < |before|
  {
    var start := HeaderAt(before, header);
    var end := BlockEnd(before, start + 1, prefix);
    SameHeader(before, after, added, header);
    if end < |before| {
      SameBlock(before, after, added, start, end, prefix);
    } else {
      LastBlockGrows(before, after, added, start, prefix);
    }
  }

  lemma {:induction false} SameBlock(before: seq<string>, after: seq<string>, added: seq<string>, start: nat, end: nat,
                                     prefix: string)
    requires Continues(before, after) && start < end < |before| && end == BlockEnd(before, start + 1, prefix)
    requires forall k | 0 <= k < |before| :: Trim((after + added)[k]) == Trim(before[k])
    ensures BlockEnd(after + added, start + 1, prefix) == end && (after + added)[start..end] == before[start..end]
  {
    var whole := after + added;
    BlockEndIs(whole, start + 1, end, prefix);
    assert forall k | start <= k < end :: whole[k] == before[k];
  }

  lemma {:induction false} LastBlockGrows(before: seq<string>, after: seq<string>, added: seq<string>, start: nat,
                                          prefix: string)
    requires Continues(before, after) && added != [] && EndsBlock(added[0], prefix) && start < |before|
    requires BlockEnd(before, start + 1, prefix) == |before|
    requires forall k | 0 <= k < |before| :: Trim((after + added)[k]) == Trim(before[k])
    ensures var end := BlockEnd(after + added, start + 1, prefix);
            end == |after| && |Concat((after + added)[start..end])| > |Concat(before[start..])|
    ensures before[start..|before|] == before[start..]
  {
    var whole := after + added;
    forall k | |before| <= k < |after| ensures !EndsBlock(whole[k], prefix) { BlankEndsNothing(whole[k], prefix); }
    assert whole[|after|] == added[0];
    BlockEndIs(whole, start + 1, |after|, prefix);
    assert whole[start..|after|] == after[start..];
    LongerText(before[start..], after[start..]);
  }

  lemma {:induction false} BlankEndsNothing(line: string, prefix: string)
    requires line == "\n"
    ensures !EndsBlock(line, prefix)
  {
    TrimBreak("");
    assert "" + "\n" == line;
  }

  lemma {:induction false} ConcatCut(lines: seq<string>, n: nat)
    requires n < |lines|
    ensures |Concat(lines[..n])| + |lines[n]| <= |Concat(lines)|
    decreases |lines| - n
  {
    assert lines[..n + 1][..n] == lines[..n];
    ConcatLength(lines, n + 1);
  }

  lemma {:induction false} ConcatWiden(a: seq<string>, b: seq<string>)
    requires |a| == |b| && forall k | 0 <= k < |a| :: |a[k]| <= |b[k]|
    ensures |Concat(a)| <= |Concat(b)|
  {
    if a != [] {
      ConcatWiden(a[..|a| - 1], b[..|b| - 1]);
    }
  }

  lemma {:induction false} LongerText(before: seq<string>, after: seq<string>)
    requires Continues(before, after)
    ensures |Concat(before)| < |Concat(after)|
  {
    ConcatWiden(before, after[..|before|]);
    ConcatCut(after, |before|);
  }

  lemma {:induction false} SafeIsVerbatim(name: string)
    requires SafeName(name)
    ensures TomlString(name) == "\"" + name + "\"" && '"' !in name
  {
    PlainIsVerbatim(name);
  }

  /** Quoted names of different servers part before the closing bracket. */
  lemma {:induction false} QuotedApart(a: string, b: string, start: string, x: string, y: string)
    requires '"' !in a && '"' !in b && a != b
    requires x == start + ("\"" + a + "\"") && y == start + ("\"" + b + "\"") + "]"
    ensures !(x + "." <= y)
  {
    var n := |start| + 1;
    assert forall k | 0 <= k < |a| :: x[n + k] == a[k];
    assert forall k | 0 <= k < |b| :: y[n + k] == b[k];
    assert x[n + |a|] == '"' && y[n + |b|] == '"';
    if |a| < |b| {
      assert y[n + |a|] == b[|a|];
    } else if |b| < |a| {
      assert x[n + |b|] == a[|b|];
    } else {
      assert exists k | 0 <= k < |a| :: a[k] != b[k];
    }
  }

  /** Adding a server leaves the text found for another one, whose header is at line start,
      as it was exactly when that one's table is followed by another table; the last table of
      the file gains the separator. */
  lemma {:induction false} OtherBlockExactly(current: string, server: Server, name: string, text: string, other: string,
                          before: seq<string>, start: nat)
    requires Planned(current, server, name) == Ok(text) && SafeName(other) && other != name
    requires before == LinesOf(current) && start == HeaderAt(before, TableHeader(other)) && start < |before|
    ensures ServerBlock(text, other) == ServerBlock(current, other)
            <==> BlockEnd(before, start + 1, TablePrefix(other)) < |before|
  {
    var lines := LinesInPlan(current, server, name, text);
    NewTableEndsOthers(lines, name, other);
    FoundAgain(current, before, LinesOf(text), Ended(lines), TableHeader(other), TablePrefix(other));
  }

  lemma {:induction false} FoundAgain(current: string, before: seq<string>, after: seq<string>, added: seq<string>,
                                      header: string, prefix: string)
    requires before == LinesOf(current) && after == Ended(Before(current)) + added && added != []
             && EndsBlock(added[0], prefix)
    requires header != "" && prefix != "" && HeaderAt(before, header) < |before|
    ensures BlockOf(after, header, prefix) == BlockOf(before, header, prefix)
            <==> BlockEnd(before, HeaderAt(before, header) + 1, prefix) < |before|
  {
    if current != "" {
      LinesContinue(current);
      BlockContinues(before, Ended(Before(current)), added, header, prefix);
    }
  }

  lemma {:induction false} LinesInPlan(current: string, server: Server, name: string, text: string)
    returns (lines: seq<string>)
    requires Planned(current, server, name) == Ok(text)
    ensures lines != [] && lines[0] == TableHeader(name)
    ensures LinesOf(text) == Ended(Before(current)) + Ended(lines)
  {
    lines := TableLines(server, name);
    PlannedLines(current, server, name, text);
  }

  lemma {:induction false} NewTableEndsOthers(lines: seq<string>, name: string, other: string)
    requires SafeName(name) && SafeName(other) && name != other && lines != [] && lines[0] == TableHeader(name)
    ensures Ended(lines) != [] && EndsBlock(Ended(lines)[0], TablePrefix(other))
  {
    HeaderText(name);
    NamesApart(name, other);
    OpensTable(lines, TableHeader(name), TablePrefix(other));
  }

  lemma {:induction false} NamesApart(name: string, other: string)
    requires SafeName(name) && SafeName(other) && name != other
    ensures !(TablePrefix(other) + "." <= TableHeader(name)) && TableHeader(name)[0] == '['
  {
    SafeIsVerbatim(name);
    SafeIsVerbatim(other);
    QuotedApart(other, name, "[mcp_servers.", TablePrefix(other), TableHeader(name));
  }

  lemma {:induction false} OpensTable(lines: seq<string>, header: string, prefix: string)
    requires lines != [] && lines[0] == header && Trim(header) == header && Intact(header)
    requires header != "" && header[0] == '[' && !(prefix + "." <= header)
    ensures Ended(lines) != [] && EndsBlock(Ended(lines)[0], prefix)
  {
    EndedAt(lines, 0);
    AfterTerminatorIsSuffix(header);
    TrimBreak(header);
  }

  // ---- A file with one server ----

  /** A header can only be found where its bracket is. */
  lemma {:induction false} HeaderOnlyInFront(current: string, header: string)
    requires header != "" && header[0] == '[' && forall k | 0 <= k < |current| && current[k] == '[' :: k == 0
    ensures HasHeader(current, header) ==> header <= current
  {
    if HasHeader(current, header) {
      var i, j :| 0 <= i <= j <= |current| && HeaderSpan(current, header, i, j);
      var from := TrimWithin(current[i..j]);
      assert current[i + from] == current[i..j][from] == header[0];
      assert header == current[i..j][..|header|] == current[..|header|];
    }
  }

  /** Headers of different servers do not begin the same text. */
  lemma {:induction false} HeadersApart(text: string, open: string, a: string, b: string)
    requires '"' !in a && '"' !in b
    requires open + ("\"" + a + "\"") + "]" <= text && open + ("\"" + b + "\"") + "]" <= text
    ensures a == b
  {
    var n := |open| + 1;
    var x, y := open + ("\"" + a + "\"") + "]", open + ("\"" + b + "\"") + "]";
    assert x[n..n + |a|] == a && y[n..n + |b|] == b && x[n + |a|] == '"' && y[n + |b|] == '"';
    assert forall k | 0 <= k < |x| :: text[k] == x[k];
    assert forall k | 0 <= k < |y| :: text[k] == y[k];
    assert forall k | 0 <= k < |a| :: a[k] == x[n + k] != '"';
    assert forall k | 0 <= k < |b| :: b[k] == y[n + k] != '"';
  }

  /** A file with the table of one server accepts another one. */
  lemma {:induction false} SecondServerAccepted(name: string, other: string, command: string)
    requires SafeName(name) && SafeName(other) && SafeName(command) && name != other
    ensures !HasHeader(TableText(Server(Some(command), None, [], []), other), TableHeader(name))
  {
    var server := Server(Some(command), None, [], []);
    var current := TableText(server, other);
    SmallTable(other, command);
    SafeIsVerbatim(name);
    SafeIsVerbatim(other);
    HeaderText(name);
    HeaderOnlyInFront(current, TableHeader(name));
    TableIsHeaded(server, other);
    if TableHeader(name) <= current { HeadersApart(current, "[mcp_servers.", name, other); }
  }

  lemma {:induction false} TwoLineBlock(lines: seq<string>, header: string, line: string, prefix: string)
    requires lines == [header, line] && Intact(header) && Trim(header) == header && Intact(line)
    requires line != "" && Trimmed(line) && line[0] != '['
    ensures HeaderAt(Ended(lines), header) == 0 && BlockEnd(Ended(lines), 1, prefix) == 2 == |Ended(lines)|
  {
    EndedAt(lines, 0);
    AfterTerminatorIsSuffix(header);
    TrimBreak(header);
    InnerLine(lines, 1, prefix);
    HeaderIsAt(Ended(lines), 0, header);
    BlockEndIs(Ended(lines), 1, 2, prefix);
  }

  lemma {:induction false} CommandLine(server: Server, name: string, command: string)
    requires SafeName(name) && SafeName(command) && server == Server(Some(command), None, [], [])
    ensures PlainValues(server)
    ensures var line := "command = " + TomlString(command);
            && TableLines(server, name) == [TableHeader(name), line]
            && Intact(line) && Trimmed(line) && line[0] != '['
  {
    var line := "command = " + TomlString(command);
    assert TableLines(server, name)[1..] == BodyLines(server, name) == [line];
    BodyIsTableLines(server, name);
    assert BodyLines(server, name)[0] == line;
    assert line[0] == 'c';
  }

  /** The only table of a file is found as it was written, up to the end of the file. */
  lemma {:induction false} OnlyTable(other: string, command: string)
    requires SafeName(other) && SafeName(command)
    ensures var server := Server(Some(command), None, [], []);
            var current := TableText(server, other);
            var before := LinesOf(current);
            && ServerBlock(current, other) == Ok(Some(current))
            && HeaderAt(before, TableHeader(other)) == 0 < |before|
            && BlockEnd(before, 1, TablePrefix(other)) == |before|
  {
    var server := Server(Some(command), None, [], []);
    var empty, current := "", TableText(server, other);
    var lines := TableLines(server, other);
    EmptyAccepts(server, other);
    CommandLine(server, other, command);
    ExtractsExactly(empty, server, other, current);
    PlannedLines(empty, server, other, current);
    HeaderText(other);
    TwoLineBlock(lines, lines[0], lines[1], TablePrefix(other));
    assert Ended(Before(empty)) + Ended(lines) == Ended(lines);
  }

  lemma {:induction false} EmptyAccepts(server: Server, name: string)
    requires SafeName(name) && Given(server.command) != Given(server.url) && server.env == []
    ensures Planned("", server, name) == Ok(TableText(server, name))
  {
    var empty, header := "", TableHeader(name);
    forall i, j | 0 <= i <= j <= |empty| ensures !HeaderSpan(empty, header, i, j) {
      assert empty[i..j] == "";
    }
    assert empty + Separator(empty) + TableText(server, name) == TableText(server, name);
  }

  /** Adding a second server to a file with one changes the text found for the first. */
  lemma {:induction false} SecondServerChangesFirst(name: string, other: string, command: string)
    requires SafeName(name) && SafeName(other) && SafeName(command) && name != other
    ensures var server := Server(Some(command), None, [], []);
            var current := TableText(server, other);
            Planned(current, server, name).Ok?
            && ServerBlock(Planned(current, server, name).value, other) != ServerBlock(current, other)
                == Ok(Some(current))
  {
    var server := Server(Some(command), None, [], []);
    var current := TableText(server, other);
    SecondServerAccepted(name, other, command);
    OnlyTable(other, command);
    OtherBlockExactly(current, server, name, current + Separator(current) + TableText(server, name), other,
                      LinesOf(current), 0);
  }
}
