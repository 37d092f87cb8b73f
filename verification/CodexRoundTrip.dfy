/** What the Codex configuration code is for: a table that was appended is found again as it was
    written, and other text is left alone. Line by line: which lines a written table has, where
    its header is found, how far the search goes, and what a separator in a value cuts off. */
module CodexRoundTrip {
  import opened Wrappers
  import opened Strings
  import opened StateKeys
  import opened TomlStrings
  import opened CodexConfig

  // ---- Lines of a concatenation ----

  lemma {:induction false} EndedAppend(a: seq<string>, b: seq<string>)
    ensures Ended(a + b) == Ended(a) + Ended(b)
  {
    if b == [] {
      assert a + b == a;
    } else {
      assert (a + b)[..|a + b| - 1] == a + b[..|b| - 1];
      EndedAppend(a, b[..|b| - 1]);
    }
  }

  lemma {:induction false} EndedAt(parts: seq<string>, k: nat)
    requires k < |parts|
    ensures |Ended(parts)| == |parts| && Ended(parts)[k] == AfterTerminator(parts[k]) + "\n"
  {
    EndedLength(parts[..|parts| - 1]);
    if k < |parts| - 1 {
      EndedAt(parts[..|parts| - 1], k);
    }
  }

  lemma {:induction false} EndedLength(parts: seq<string>)
    ensures |Ended(parts)| == |parts|
  {
    if parts != [] {
      EndedLength(parts[..|parts| - 1]);
    }
  }

  lemma {:induction false} LinesOfMoreParts(left: seq<string>, right: seq<string>)
    requires right != []
    ensures LinesOfParts(left + right) == Ended(left) + LinesOfParts(right)
  {
    var init := right[..|right| - 1];
    assert (left + right)[..|left + right| - 1] == left + init;
    EndedAppend(left, init);
  }

  lemma {:induction false} LinesAfterBreak(a: string, b: string)
    ensures LinesOf(a + "\n" + b) == Ended(Split(a, '\n')) + LinesOf(b)
  {
    assert a + "\n" + b == a + ['\n'] + b;
    SplitAppend(a, b, '\n');
    LinesOfMoreParts(Split(a, '\n'), Split(b, '\n'));
  }

  /** The pieces of the text in front of the appended table. */
  function Before(current: string): seq<string> {
    if current == "" then []
    else if current[|current| - 1] == '\n' then Split(current, '\n')
    else Split(current, '\n') + [""]
  }

  lemma {:induction false} BodyLinesOf(lines: seq<string>, body: string)
    requires lines != [] && forall i | 0 <= i < |lines| :: '\n' !in lines[i]
    requires body == Join(lines, '\n') + "\n"
    ensures LinesOf(body) == Ended(lines)
  {
    var empty := "";
    SplitJoin(lines, '\n');
    LinesAfterBreak(Join(lines, '\n'), empty);
    assert Join(lines, '\n') + "\n" + empty == body;
    assert LinesOf(empty) == [];
  }

  lemma {:induction false} SeparatedLines(current: string, body: string)
    ensures LinesOf(current + Separator(current) + body) == Ended(Before(current)) + LinesOf(body)
  {
    if current == "" {
      assert current + Separator(current) + body == body;
    } else if current[|current| - 1] == '\n' {
      LinesAfterBreak(current, body);
    } else {
      LinesAfterTwoBreaks(current, body, "");
    }
  }

  lemma {:induction false} LinesAfterTwoBreaks(current: string, body: string, empty: string)
    requires empty == ""
    ensures LinesOf(current + "\n\n" + body) == Ended(Split(current, '\n') + [empty]) + LinesOf(body)
  {
    BreakFirst(body, empty);
    LinesAfterBreak(current, "\n" + body);
    assert current + "\n" + ("\n" + body) == current + "\n\n" + body;
    EndedAppend(Split(current, '\n'), [empty]);
  }

  lemma {:induction false} BreakFirst(body: string, empty: string)
    requires empty == ""
    ensures LinesOf("\n" + body) == Ended([empty]) + LinesOf(body)
  {
    LinesAfterBreak(empty, body);
    assert empty + "\n" + body == "\n" + body;
  }

  // ---- Headers ----

  lemma {:induction false} TrimEndBreak(s: string)
    ensures TrimEnd(s + "\n") == TrimEnd(s)
  {
    assert (s + "\n")[..|s|] == s;
  }

  lemma {:induction false} TrimBreak(s: string)
    ensures Trim(s + "\n") == Trim(s)
  {
    if s == "" {
      assert TrimStart("\n") == TrimStart("\n"[1..]) == "";
    } else if IsSpace(s[0]) {
      assert (s + "\n")[1..] == s[1..] + "\n";
      TrimBreak(s[1..]);
    } else {
      TrimEndBreak(s);
    }
  }

  lemma {:induction false} AfterTerminatorIsSuffix(s: string)
    ensures var t := |s| - |AfterTerminator(s)|;
            t >= 0 && AfterTerminator(s) == s[t..] && (t == 0 || OtherTerminator(s[t - 1]))
    ensures Intact(s) <==> AfterTerminator(s) == s
  {
    if s != "" {
      var init := s[..|s| - 1];
      AfterTerminatorIsSuffix(init);
      assert s == init + [s[|s| - 1]];
    }
  }

  lemma {:induction false} SliceShift(s: string, from: nat, to: nat)
    requires s != "" && from <= to <= |s| - 1
    ensures s[1..][from..to] == s[from + 1..to + 1]
  {
  }

  /** Where piece k lies in the text. */
  lemma {:induction false} PieceAt(s: string, k: nat) returns (a: nat)
    requires k < |Split(s, '\n')|
    ensures var p := Split(s, '\n')[k];
            && a + |p| <= |s| && s[a..a + |p|] == p
            && (a == 0 || s[a - 1] == '\n') && (a + |p| == |s| || s[a + |p|] == '\n')
            && (k == 0 <==> a == 0)
  {
    if s == "" {
      a := 0;
    } else if s[0] == '\n' {
      if k == 0 {
        a := 0;
      } else {
        var b := PieceAt(s[1..], k - 1);
        a := b + 1;
        SliceShift(s, b, b + |Split(s, '\n')[k]|);
      }
    } else {
      var b := PieceAt(s[1..], k);
      a := if k == 0 then 0 else b + 1;
      SliceShift(s, b, b + |Split(s[1..], '\n')[k]|);
    }
  }

  /** A text that passes the check has no line that the search would take for the header. */
  lemma {:induction false} NoEarlierHeader(current: string, header: string, k: nat)
    requires !HasHeader(current, header) && header != "" && k < |Ended(Before(current))|
    ensures !IsHeader(Ended(Before(current))[k], header)
  {
    var parts := Before(current);
    EndedLength(parts);
    EndedAt(parts, k);
    TrimBreak(AfterTerminator(parts[k]));
    if k < |Split(current, '\n')| {
      PieceNoHeader(current, header, k);
    } else {
      assert parts[k] == "";
    }
  }

  lemma {:induction false} PieceNoHeader(current: string, header: string, k: nat)
    requires !HasHeader(current, header) && k < |Split(current, '\n')|
    ensures !IsHeader(AfterTerminator(Split(current, '\n')[k]), header)
  {
    var p := Split(current, '\n')[k];
    var a := PieceAt(current, k);
    AfterTerminatorIsSuffix(p);
    var t := |p| - |AfterTerminator(p)|;
    assert current[a + t..a + |p|] == p[t..];
    assert t > 0 ==> current[a + t - 1] == p[t - 1];
    assert !HeaderSpan(current, header, a + t, a + |p|);
  }

  // ---- The lines of a table ----

  predicate NoSeparators(value: string) {
    forall i | 0 <= i < |value| :: value[i] != '\U{2028}' && value[i] != '\U{2029}'
  }

  predicate PlainGiven(value: Option<string>) {
    Given(value) ==> NoSeparators(value.value)
  }

  predicate PlainArgs(args: seq<string>) {
    forall i | 0 <= i < |args| :: NoSeparators(args[i])
  }

  predicate PlainEnv(env: seq<(string, string)>) {
    forall key | key in Keys(env) :: NoSeparators(ValueOf(env, key))
  }

  /** No value of the server has one of the two separators that JSON leaves as they are. */
  predicate PlainValues(server: Server) {
    PlainGiven(server.command) && PlainGiven(server.url) && PlainArgs(server.args) && PlainEnv(server.env)
  }

  lemma {:induction false} StringIntactExactly(value: string)
    ensures Intact(TomlString(value)) <==> NoSeparators(value)
    ensures '\n' !in TomlString(value)
  {
    WrittenCharacters(value);
    var text := TomlString(value);
    if !Intact(text) {
      var i :| 0 <= i < |text| && OtherTerminator(text[i]);
      assert text[i] in text;
      var k :| 0 <= k < |value| && value[k] == text[i];
    }
    if !NoSeparators(value) {
      var k :| 0 <= k < |value| && (value[k] == '\U{2028}' || value[k] == '\U{2029}');
      assert value[k] in text;
      var i :| 0 <= i < |text| && text[i] == value[k];
    }
  }

  lemma {:induction false} IntactAppend(a: string, b: string)
    ensures Intact(a + b) <==> Intact(a) && Intact(b)
  {
    if Intact(a + b) {
      assert forall i | 0 <= i < |a| :: a[i] == (a + b)[i];
      assert forall i | 0 <= i < |b| :: b[i] == (a + b)[|a| + i];
    }
  }

  lemma {:induction false} HeaderText(name: string)
    requires SafeName(name)
    ensures Trimmed(TableHeader(name)) && Trim(TableHeader(name)) == TableHeader(name)
    ensures '\n' !in TableHeader(name) && Intact(TableHeader(name))
  {
    StringIntactExactly(name);
    NamedTable("[mcp_servers.", TomlString(name), "]");
    TrimIsTrimmed(TableHeader(name));
  }

  lemma {:induction false} NamedTable(open: string, middle: string, close: string)
    requires Intact(open) && Intact(middle) && Intact(close) && '\n' !in open + middle + close
    requires open != "" && !IsSpace(open[0]) && close != "" && !IsSpace(close[|close| - 1])
    ensures Intact(open + middle + close) && Trimmed(open + middle + close)
  {
    IntactAppend(open, middle);
    IntactAppend(open + middle, close);
  }

  lemma {:induction false} CommaListIntactExactly(parts: seq<string>)
    requires forall i | 0 <= i < |parts| :: '\n' !in parts[i]
    ensures Intact(CommaList(parts)) <==> forall i | 0 <= i < |parts| :: Intact(parts[i])
    ensures '\n' !in CommaList(parts)
  {
    if |parts| > 1 {
      var init, last := parts[..|parts| - 1], parts[|parts| - 1];
      CommaListIntactExactly(init);
      IntactAppend(CommaList(init) + ", ", last);
      IntactAppend(CommaList(init), ", ");
      assert parts == init + [last];
    }
  }

  lemma {:induction false} WrittenIntactExactly(values: seq<string>)
    ensures (forall i | 0 <= i < |Written(values)| :: Intact(Written(values)[i]))
            <==> forall i | 0 <= i < |values| :: NoSeparators(values[i])
    ensures forall i | 0 <= i < |Written(values)| :: '\n' !in Written(values)[i]
  {
    forall i | 0 <= i < |values|
      ensures Intact(Written(values)[i]) <==> NoSeparators(values[i])
      ensures '\n' !in Written(values)[i]
    {
      StringIntactExactly(values[i]);
    }
    if forall i | 0 <= i < |Written(values)| :: Intact(Written(values)[i]) {
      forall i | 0 <= i < |values| ensures NoSeparators(values[i]) { assert Intact(Written(values)[i]); }
    }
  }

  /** A line of a table: intact with its values, on one line, and in no case a header of its own. */
  ghost predicate TableLine(line: string, prefix: string, plain: bool) {
    && (Intact(line) <==> plain) && '\n' !in line
    && (line == "" || (Trimmed(line) && (line[0] != '[' || prefix + "." <= line)))
  }

  lemma {:induction false} ValueLine(start: string, value: string, prefix: string)
    requires start != "" && start[0] != '[' && !IsSpace(start[0]) && Intact(start) && '\n' !in start
    ensures TableLine(start + TomlString(value), prefix, NoSeparators(value))
  {
    StringIntactExactly(value);
    WrittenCharacters(value);
    IntactAppend(start, TomlString(value));
  }

  lemma {:induction false} Bracketed(open: string, list: string, close: string, prefix: string, plain: bool)
    requires Intact(open) && Intact(close) && '\n' !in open && '\n' !in list && '\n' !in close
    requires open != "" && open[0] != '[' && !IsSpace(open[0]) && close != "" && !IsSpace(close[|close| - 1])
    requires plain <==> Intact(list)
    ensures TableLine(open + list + close, prefix, plain)
  {
    IntactAppend(open, list);
    IntactAppend(open + list, close);
  }

  lemma {:induction false} EnvHeaderLine(name: string)
    requires SafeName(name)
    ensures TableLine(TablePrefix(name) + ".env]", TablePrefix(name), true)
  {
    StringIntactExactly(name);
    NamedTable("[mcp_servers.", TomlString(name), ".env]");
    assert TablePrefix(name) + ".env]" == (TablePrefix(name) + ".") + "env]";
  }

  lemma {:induction false} EnvLine(keys: seq<string>, env: seq<(string, string)>, i: nat, prefix: string)
    requires i < |keys| && SafeKey(keys[i])
    ensures TableLine(EnvLines(keys, env)[i], prefix, NoSeparators(ValueOf(env, keys[i])))
  {
    var start := keys[i] + " = ";
    assert EnvLines(keys, env)[i] == start + TomlString(ValueOf(env, keys[i]));
    ValueLine(start, ValueOf(env, keys[i]), prefix);
  }

  ghost predicate AllTableLines(lines: seq<string>, prefix: string, plain: bool) {
    && (forall i | 0 <= i < |lines| :: '\n' !in lines[i])
    && (forall i | 0 <= i < |lines| ::
          lines[i] == "" || (Trimmed(lines[i]) && (lines[i][0] != '[' || prefix + "." <= lines[i])))
    && (plain <==> forall i | 0 <= i < |lines| :: Intact(lines[i]))
  }

  lemma {:induction false} AllAppend(a: seq<string>, b: seq<string>, prefix: string, p: bool, q: bool)
    requires AllTableLines(a, prefix, p) && AllTableLines(b, prefix, q)
    ensures AllTableLines(a + b, prefix, p && q)
  {
    if forall i | 0 <= i < |a + b| :: Intact((a + b)[i]) {
      assert forall i | 0 <= i < |a| :: a[i] == (a + b)[i];
      assert forall i | 0 <= i < |b| :: b[i] == (a + b)[|a| + i];
    }
  }

  lemma {:induction false} OneLine(line: string, prefix: string, given: bool, p: bool)
    requires given ==> TableLine(line, prefix, p)
    ensures AllTableLines(if given then [line] else [], prefix, given ==> p)
  {
    assert forall i | 0 <= i < |[line]| :: [line][i] == line;
  }

  /** The fixed beginnings of lines. */
  lemma {:induction false} LiteralStarts()
    ensures Intact("command = ") && '\n' !in "command = "
    ensures Intact("url = ") && '\n' !in "url = "
    ensures Intact("args = [") && '\n' !in "args = ["
    ensures Intact("]") && '\n' !in "]"
    ensures Intact(" = ") && '\n' !in " = "
  {
  }

  lemma {:induction false} CommandPlain(server: Server, prefix: string)
    ensures AllTableLines(CommandLines(server), prefix, PlainGiven(server.command))
  {
    if Given(server.command) {
      LiteralStarts();
      ValueLine("command = ", server.command.value, prefix);
      OneLine("command = " + TomlString(server.command.value), prefix, true, NoSeparators(server.command.value));
    }
  }

  lemma {:induction false} UrlPlain(server: Server, prefix: string)
    ensures AllTableLines(UrlLines(server), prefix, PlainGiven(server.url))
  {
    if Given(server.url) {
      LiteralStarts();
      ValueLine("url = ", server.url.value, prefix);
      OneLine("url = " + TomlString(server.url.value), prefix, true, NoSeparators(server.url.value));
    }
  }

  lemma {:induction false} BracketedArgs(list: string, prefix: string, plain: bool)
    requires '\n' !in list && (plain <==> Intact(list))
    ensures TableLine("args = [" + list + "]", prefix, plain)
  {
    var open, close := "args = [", "]";
    Bracketed(open, list, close, prefix, plain);
  }

  lemma {:induction false} ArgsPlain(server: Server, prefix: string)
    ensures AllTableLines(ArgsLines(server), prefix, PlainArgs(server.args))
  {
    if server.args != [] {
      var plain := PlainArgs(server.args);
      WrittenIntactExactly(server.args);
      CommaListIntactExactly(Written(server.args));
      BracketedArgs(CommaList(Written(server.args)), prefix, plain);
      OneLine("args = [" + CommaList(Written(server.args)) + "]", prefix, true, plain);
    }
  }

  lemma {:induction false} Gather(lines: seq<string>, prefix: string, plains: seq<bool>)
    requires |lines| == |plains| && forall i | 0 <= i < |lines| :: TableLine(lines[i], prefix, plains[i])
    ensures AllTableLines(lines, prefix, forall i | 0 <= i < |plains| :: plains[i])
  {
  }

  lemma {:induction false} KeyLines(keys: seq<string>, env: seq<(string, string)>, prefix: string)
    requires FirstBadKey(keys).None?
    ensures AllTableLines(EnvLines(keys, env), prefix,
                          forall i | 0 <= i < |keys| :: NoSeparators(ValueOf(env, keys[i])))
  {
    var plains := seq(|keys|, i requires 0 <= i < |keys| => NoSeparators(ValueOf(env, keys[i])));
    forall i | 0 <= i < |keys| ensures TableLine(EnvLines(keys, env)[i], prefix, plains[i]) {
      EnvLine(keys, env, i, prefix);
    }
    Gather(EnvLines(keys, env), prefix, plains);
    if forall i | 0 <= i < |plains| :: plains[i] {
      forall i | 0 <= i < |keys| ensures NoSeparators(ValueOf(env, keys[i])) { assert plains[i]; }
    }
  }

  lemma {:induction false} SameKeys(env: seq<(string, string)>)
    ensures var keys := SortStrings(Keys(env));
            (forall i | 0 <= i < |keys| :: NoSeparators(ValueOf(env, keys[i]))) <==>
            (forall key | key in Keys(env) :: NoSeparators(ValueOf(env, key)))
  {
    var keys := SortStrings(Keys(env));
    SortKeepsMultiset(Keys(env));
    forall key ensures key in keys <==> key in Keys(env) {
      assert key in multiset(keys) <==> key in multiset(Keys(env));
    }
  }

  lemma {:induction false} EnvPlain(server: Server, name: string)
    requires SafeName(name) && FirstBadKey(SortStrings(Keys(server.env))).None?
    ensures AllTableLines(EnvTableLines(server, name), TablePrefix(name), PlainEnv(server.env))
  {
    var env := server.env;
    if env != [] {
      var keys := SortStrings(Keys(env));
      KeyLines(keys, env, TablePrefix(name));
      SameKeys(env);
      EnvHeaderLine(name);
      EnvHead("", TablePrefix(name) + ".env]", TablePrefix(name));
      AllAppend(["", TablePrefix(name) + ".env]"], EnvLines(keys, env), TablePrefix(name), true,
                forall i | 0 <= i < |keys| :: NoSeparators(ValueOf(env, keys[i])));
    }
  }

  lemma {:induction false} EnvHead(blank: string, line: string, prefix: string)
    requires blank == "" && TableLine(line, prefix, true)
    ensures AllTableLines([blank, line], prefix, true)
  {
    var head := [blank, line];
    assert forall i | 0 <= i < |head| :: head[i] == blank || head[i] == line;
  }

  lemma {:induction false} FourParts(command: seq<string>, url: seq<string>, args: seq<string>, env: seq<string>,
                                     prefix: string,
                  p1: bool, p2: bool, p3: bool, p4: bool)
    requires AllTableLines(command, prefix, p1) && AllTableLines(url, prefix, p2)
    requires AllTableLines(args, prefix, p3) && AllTableLines(env, prefix, p4)
    ensures AllTableLines(command + url + args + env, prefix, p1 && p2 && p3 && p4)
  {
    AllAppend(command, url, prefix, p1, p2);
    AllAppend(command + url, args, prefix, p1 && p2, p3);
    AllAppend(command + url + args, env, prefix, p1 && p2 && p3, p4);
  }

  lemma {:induction false} BodyIsTableLines(server: Server, name: string)
    requires SafeName(name) && FirstBadKey(SortStrings(Keys(server.env))).None?
    ensures AllTableLines(BodyLines(server, name), TablePrefix(name), PlainValues(server))
  {
    CommandPlain(server, TablePrefix(name));
    UrlPlain(server, TablePrefix(name));
    ArgsPlain(server, TablePrefix(name));
    EnvPlain(server, name);
    FourParts(CommandLines(server), UrlLines(server), ArgsLines(server), EnvTableLines(server, name), TablePrefix(name),
              PlainGiven(server.command), PlainGiven(server.url), PlainArgs(server.args), PlainEnv(server.env));
  }

  // ---- Extraction ----

  lemma {:induction false} ConcatLength(lines: seq<string>, n: nat)
    requires n <= |lines|
    ensures |Concat(lines[..n])| <= |Concat(lines)|
    decreases |lines| - n
  {
    if n < |lines| {
      ConcatLength(lines, n + 1);
      assert lines[..n + 1][..n] == lines[..n];
    } else {
      assert lines[..n] == lines;
    }
  }

  lemma {:induction false} JoinLast(lines: seq<string>)
    requires |lines| >= 2
    ensures Join(lines, '\n') == Join(lines[..|lines| - 1], '\n') + "\n" + lines[|lines| - 1]
  {
    var init, last := lines[..|lines| - 1], [lines[|lines| - 1]];
    assert lines == init + last;
    JoinAppend(init, last, '\n');
  }

  /** Written line by line, a text survives as long as all its lines are intact, and is cut short otherwise. */
  lemma {:induction false} ConcatEnded(lines: seq<string>)
    requires lines != []
    ensures (forall i | 0 <= i < |lines| :: Intact(lines[i])) ==> Concat(Ended(lines)) == Join(lines, '\n') + "\n"
    ensures !(forall i | 0 <= i < |lines| :: Intact(lines[i])) ==> |Concat(Ended(lines))| < |Join(lines, '\n')| + 1
  {
    var init, last := lines[..|lines| - 1], lines[|lines| - 1];
    AfterTerminatorIsSuffix(last);
    if init == [] {
      assert lines == [last] && Ended(init) == [];
    } else {
      ConcatEnded(init);
      JoinLast(lines);
      assert lines == init + [last];
    }
  }

  lemma {:induction false} BlockEndShift(before: seq<string>, lines: seq<string>, from: nat, prefix: string)
    requires from <= |lines|
    ensures BlockEnd(before + lines, |before| + from, prefix) == |before| + BlockEnd(lines, from, prefix)
    decreases |lines| - from
  {
    if from < |lines| {
      assert (before + lines)[|before| + from] == lines[from];
      BlockEndShift(before, lines, from + 1, prefix);
    }
  }

  lemma {:induction false} HeaderIsAt(lines: seq<string>, i: nat, header: string)
    requires i < |lines| && IsHeader(lines[i], header) && forall k | 0 <= k < i :: !IsHeader(lines[k], header)
    ensures HeaderAt(lines, header) == i
  {
  }

  lemma {:induction false} BlockAfter(before: seq<string>, lines: seq<string>, header: string, prefix: string)
    requires forall k | 0 <= k < |before| :: !IsHeader(before[k], header)
    requires lines != [] && IsHeader(lines[0], header)
    ensures BlockOf(before + lines, header, prefix) == Some(Concat(lines[..BlockEnd(lines, 1, prefix)]))
  {
    var whole := before + lines;
    assert whole[|before|] == lines[0];
    assert forall k | 0 <= k < |before| :: whole[k] == before[k];
    HeaderIsAt(whole, |before|, header);
    BlockEndShift(before, lines, 1, prefix);
    SliceAfter(before, lines, BlockEnd(lines, 1, prefix));
  }

  lemma {:induction false} SliceAfter(before: seq<string>, lines: seq<string>, end: nat)
    requires end <= |lines|
    ensures (before + lines)[|before|..|before| + end] == lines[..end]
  {
  }

  /** The search stops at the end of the table when its lines are intact, and otherwise has lost
      characters wherever it stops. */
  lemma {:induction false} WholeTable(lines: seq<string>, header: string, prefix: string, plain: bool)
    requires lines != [] && lines[0] == header && Intact(header) && Trim(header) == header
    requires AllTableLines(lines[1..], prefix, plain)
    ensures Ended(lines) != [] && IsHeader(Ended(lines)[0], header)
    ensures Concat(Ended(lines)[..BlockEnd(Ended(lines), 1, prefix)]) == Join(lines, '\n') + "\n" <==> plain
  {
    EndedAt(lines, 0);
    AfterTerminatorIsSuffix(header);
    TrimBreak(header);
    assert forall i | 0 < i < |lines| :: lines[i] == lines[1..][i - 1];
    if plain {
      IntactTable(lines, prefix);
    } else {
      var i :| 0 <= i < |lines[1..]| && !Intact(lines[1..][i]);
      CutTable(lines, i + 1, BlockEnd(Ended(lines), 1, prefix));
    }
  }

  lemma {:induction false} CutTable(lines: seq<string>, i: nat, end: nat)
    requires i < |lines| && !Intact(lines[i]) && end <= |Ended(lines)|
    ensures Concat(Ended(lines)[..end]) != Join(lines, '\n') + "\n"
  {
    ConcatEnded(lines);
    ConcatLength(Ended(lines), end);
  }

  lemma {:induction false} IntactTable(lines: seq<string>, prefix: string)
    requires lines != [] && |Ended(lines)| == |lines| && forall i | 0 <= i < |lines| :: Intact(lines[i])
    requires forall i | 0 < i < |lines| ::
               lines[i] == "" || (Trimmed(lines[i]) && (lines[i][0] != '[' || prefix + "." <= lines[i]))
    ensures Concat(Ended(lines)[..BlockEnd(Ended(lines), 1, prefix)]) == Join(lines, '\n') + "\n"
  {
    var ended := Ended(lines);
    forall k | 1 <= k < |ended| ensures !EndsBlock(ended[k], prefix) {
      InnerLine(lines, k, prefix);
    }
    ConcatEnded(lines);
    assert ended[..|ended|] == ended;
  }

  lemma {:induction false} InnerLine(lines: seq<string>, k: nat, prefix: string)
    requires k < |lines| && Intact(lines[k])
    requires lines[k] == "" || (Trimmed(lines[k]) && (lines[k][0] != '[' || prefix + "." <= lines[k]))
    ensures |Ended(lines)| == |lines| && !EndsBlock(Ended(lines)[k], prefix)
  {
    EndedAt(lines, k);
    AfterTerminatorIsSuffix(lines[k]);
    TrimBreak(lines[k]);
    TrimIsTrimmed(lines[k]);
  }

  /** The lines of a planned text: those in front, complete, then those of the table. */
  lemma {:induction false} PlannedLines(current: string, server: Server, name: string, text: string)
    requires Planned(current, server, name) == Ok(text)
    ensures LinesOf(text) == Ended(Before(current)) + Ended(TableLines(server, name))
  {
    var lines := TableLines(server, name);
    BodyIsTableLines(server, name);
    HeaderText(name);
    forall i | 0 <= i < |lines| ensures '\n' !in lines[i] {
      assert i > 0 ==> lines[i] == BodyLines(server, name)[i - 1];
    }
    BodyLinesOf(lines, TableText(server, name));
    SeparatedLines(current, TableText(server, name));
  }

  /** Everything that planning accepted is found again as it was written exactly when no value
      has a line or paragraph separator, which would hide the start of its line. */
  lemma {:induction false} ExtractsExactly(current: string, server: Server, name: string, text: string)
    requires Planned(current, server, name) == Ok(text)
    ensures ServerBlock(text, name) == Ok(Some(TableText(server, name))) <==> PlainValues(server)
    ensures ServerBlock(text, name).value.Some?
  {
    var header, prefix, lines := TableHeader(name), TablePrefix(name), TableLines(server, name);
    PlannedLines(current, server, name, text);
    assert lines[1..] == BodyLines(server, name);
    BodyIsTableLines(server, name);
    HeaderText(name);
    forall k | 0 <= k < |Ended(Before(current))| ensures !IsHeader(Ended(Before(current))[k], header) {
      NoEarlierHeader(current, header, k);
    }
    WholeTable(lines, header, prefix, PlainValues(server));
    BlockAfter(Ended(Before(current)), Ended(lines), header, prefix);
  }

  /** A file gets a server whose command has a line separator: what is found is not what was written. */
  lemma {:induction false} SeparatorHidesLine(name: string, command: string)
    requires SafeName(name) && '\U{2028}' in command
    ensures var server := Server(Some(command), None, [], []);
            Planned("", server, name) == Ok(TableText(server, name))
            && ServerBlock(TableText(server, name), name) != Ok(Some(TableText(server, name)))
  {
    var server := Server(Some(command), None, [], []);
    var empty, header := "", TableHeader(name);
    assert !HasHeader(empty, header) by {
      forall i, j | 0 <= i <= j <= |empty| ensures !HeaderSpan(empty, header, i, j) {
        assert empty[i..j] == "";
      }
    }
    assert SortStrings(Keys(server.env)) == [];
    assert empty + Separator(empty) + TableText(server, name) == TableText(server, name);
    ExtractsExactly(empty, server, name, TableText(server, name));
  }
}
