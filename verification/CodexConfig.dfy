/** The Codex configuration file: appending the table of one MCP server, finding it again,
    and removing it, all on the text, without parsing the rest. */
module CodexConfig {
  import opened Wrappers
  import opened Strings
  import opened StateKeys
  import opened TomlStrings

  // ---- Lines ----

  /** The line terminators of ECMAScript other than line feed; `.` matches none of them. */
  predicate OtherTerminator(c: char) {
    c == '\r' || c == '\U{2028}' || c == '\U{2029}'
  }

  predicate Terminator(c: char) {
    c == '\n' || OtherTerminator(c)
  }

  predicate Intact(s: string) {
    forall i | 0 <= i < |s| :: !OtherTerminator(s[i])
  }

  /** What `.*` can match up to the end of s. */
  function AfterTerminator(s: string): string {
    if s == "" || OtherTerminator(s[|s| - 1]) then ""
    else AfterTerminator(s[..|s| - 1]) + [s[|s| - 1]]
  }

  /** The pieces of a text, each with its line feed. */
  function Ended(parts: seq<string>): seq<string> {
    if parts == [] then [] else Ended(parts[..|parts| - 1]) + [AfterTerminator(parts[|parts| - 1]) + "\n"]
  }

  function LinesOfParts(parts: seq<string>): seq<string>
    requires parts != []
  {
    var last := AfterTerminator(parts[|parts| - 1]);
    Ended(parts[..|parts| - 1]) + if last == "" then [] else [last]
  }

  /** The non-empty matches of `.*` followed by a line feed or the end of the text. */
  function LinesOf(content: string): seq<string> {
    LinesOfParts(Split(content, '\n'))
  }

  function Concat(lines: seq<string>): string {
    if lines == [] then "" else Concat(lines[..|lines| - 1]) + lines[|lines| - 1]
  }

  // ---- Tables ----

  function TableHeader(name: string): string {
    "[mcp_servers." + TomlString(name) + "]"
  }

  function TablePrefix(name: string): string {
    "[mcp_servers." + TomlString(name)
  }

  predicate SafeName(name: string) {
    1 <= |name| <= 128 && forall i | 0 <= i < |name| :: NameChar(name[i])
  }

  predicate NameChar(c: char) {
    'A' <= c <= 'Z' || 'a' <= c <= 'z' || '0' <= c <= '9' || c == '.' || c == '_' || c == '-'
  }

  predicate IsHeader(line: string, header: string) {
    Trim(line) == header
  }

  /** A line that opens a table which is not part of the server's. */
  predicate EndsBlock(line: string, prefix: string) {
    "[" <= Trim(line) && !(prefix + "." <= Trim(line))
  }

  function HeaderAt(lines: seq<string>, header: string): (i: nat)
    ensures i <= |lines| && (forall k | 0 <= k < i :: !IsHeader(lines[k], header))
            && (i < |lines| ==> IsHeader(lines[i], header))
  {
    if lines == [] then 0
    else
      var i := HeaderAt(lines[..|lines| - 1], header);
      if i < |lines| - 1 || IsHeader(lines[|lines| - 1], header) then i else |lines|
  }

  function BlockEnd(lines: seq<string>, from: nat, prefix: string): (end: nat)
    requires from <= |lines|
    ensures from <= end <= |lines| && (forall k | from <= k < end :: !EndsBlock(lines[k], prefix))
    ensures end < |lines| ==> EndsBlock(lines[end], prefix)
    decreases |lines| - from
  {
    if from == |lines| || EndsBlock(lines[from], prefix) then from else BlockEnd(lines, from + 1, prefix)
  }

  /** The lines from the server's header up to the next foreign table. */
  function BlockOf(lines: seq<string>, header: string, prefix: string): Option<string> {
    var start := HeaderAt(lines, header);
    if start == |lines| then None else Some(Concat(lines[start..BlockEnd(lines, start + 1, prefix)]))
  }

  datatype ConfigError = BadName | NotExactlyOne | AlreadyExists | BadKey(key: string)

  function ServerBlock(content: string, name: string): Result<Option<string>, ConfigError> {
    if !SafeName(name) then Err(BadName) else Ok(BlockOf(LinesOf(content), TableHeader(name), TablePrefix(name)))
  }

  /** codexMcpServerBlock. */
  method FindServerBlock(content: string, name: string) returns (r: Result<Option<string>, ConfigError>)
    ensures r == ServerBlock(content, name)
  {
    if !SafeName(name) { return Err(BadName); }
    var lines := LinesOf(content);
    var block := FindBlock(lines, TableHeader(name), TablePrefix(name));
    return Ok(block);
  }

  method FindBlock(lines: seq<string>, header: string, prefix: string) returns (block: Option<string>)
    ensures block == BlockOf(lines, header, prefix)
  {
    var start := 0;
    while start < |lines| && !IsHeader(lines[start], header)
      invariant start <= |lines| && forall k | 0 <= k < start :: !IsHeader(lines[k], header)
    {
      start := start + 1;
    }
    var at := HeaderAt(lines, header);
    assert at < |lines| ==> at >= start;
    if start == |lines| { return None; }
    var end := start + 1;
    while end < |lines| && !EndsBlock(lines[end], prefix)
      invariant start < end <= |lines| && BlockEnd(lines, start + 1, prefix) == BlockEnd(lines, end, prefix)
    {
      end := end + 1;
    }
    return Some(Concat(lines[start..end]));
  }

  // ---- Planning ----

  datatype Server = Server(command: Option<string>, url: Option<string>, args: seq<string>, env: seq<(string, string)>)

  predicate Given(value: Option<string>) {
    value.Some? && value.value != ""
  }

  predicate KeyChar(c: char) {
    'A' <= c <= 'Z' || 'a' <= c <= 'z' || c == '_'
  }

  predicate SafeKey(key: string) {
    key != "" && KeyChar(key[0]) && forall i | 0 <= i < |key| :: KeyChar(key[i]) || '0' <= key[i] <= '9'
  }

  /** From the start of a line to the end of a line, nothing but the header and whitespace. */
  predicate HeaderSpan(content: string, header: string, i: int, j: int)
    requires 0 <= i <= j <= |content|
  {
    (i == 0 || Terminator(content[i - 1])) && (j == |content| || Terminator(content[j]))
        && IsHeader(content[i..j], header)
  }

  /** The multi-line regular expression that looks for an existing table. */
  predicate HasHeader(content: string, header: string) {
    exists i, j | 0 <= i <= j <= |content| :: HeaderSpan(content, header, i, j)
  }

  function Keys(env: seq<(string, string)>): seq<string> {
    seq(|env|, i requires 0 <= i < |env| => env[i].0)
  }

  function ValueOf(env: seq<(string, string)>, key: string): string {
    if env == [] then ""
    else if env[|env| - 1].0 == key then env[|env| - 1].1
    else ValueOf(env[..|env| - 1], key)
  }

  function Written(values: seq<string>): seq<string> {
    seq(|values|, i requires 0 <= i < |values| => TomlString(values[i]))
  }

  function CommaList(parts: seq<string>): string {
    if parts == [] then ""
    else if |parts| == 1 then parts[0]
    else CommaList(parts[..|parts| - 1]) + ", " + parts[|parts| - 1]
  }

  function EnvLines(keys: seq<string>, env: seq<(string, string)>): seq<string> {
    seq(|keys|, i requires 0 <= i < |keys| => keys[i] + " = " + TomlString(ValueOf(env, keys[i])))
  }

  function FirstBadKey(keys: seq<string>): (bad: Option<string>)
    ensures bad.None? <==> forall i | 0 <= i < |keys| :: SafeKey(keys[i])
  {
    if keys == [] then None
    else if FirstBadKey(keys[..|keys| - 1]).Some? then FirstBadKey(keys[..|keys| - 1])
    else if SafeKey(keys[|keys| - 1]) then None
    else Some(keys[|keys| - 1])
  }

  function CommandLines(server: Server): seq<string> {
    if Given(server.command) then ["command = " + TomlString(server.command.value)] else []
  }

  function UrlLines(server: Server): seq<string> {
    if Given(server.url) then ["url = " + TomlString(server.url.value)] else []
  }

  function ArgsLines(server: Server): seq<string> {
    if server.args != [] then ["args = [" + CommaList(Written(server.args)) + "]"] else []
  }

  function EnvTableLines(server: Server, name: string): seq<string> {
    if server.env == [] then []
    else ["", TablePrefix(name) + ".env]"] + EnvLines(SortStrings(Keys(server.env)), server.env)
  }

  function ServerLines(server: Server): seq<string> {
    CommandLines(server) + UrlLines(server) + ArgsLines(server)
  }

  /** The lines of the new table: its header and what is below it. */
  function TableLines(server: Server, name: string): seq<string> {
    [TableHeader(name)] + BodyLines(server, name)
  }

  function BodyLines(server: Server, name: string): seq<string> {
    ServerLines(server) + EnvTableLines(server, name)
  }

  function Separator(current: string): string {
    if current == "" then "" else if current[|current| - 1] == '\n' then "\n" else "\n\n"
  }

  function TableText(server: Server, name: string): string {
    Join(TableLines(server, name), '\n') + "\n"
  }

  function Planned(current: string, server: Server, name: string): Result<string, ConfigError> {
    if !SafeName(name) then Err(BadName)
    else if Given(server.command) == Given(server.url) then Err(NotExactlyOne)
    else if HasHeader(current, TableHeader(name)) then Err(AlreadyExists)
    else
      match FirstBadKey(SortStrings(Keys(server.env)))
      case Some(key) => Err(BadKey(key))
      case None => Ok(current + Separator(current) + TableText(server, name))
  }

  /** The header and the lines of the server itself. */
  method HeadLines(server: Server, name: string) returns (lines: seq<string>)
    ensures lines == [TableHeader(name)] + ServerLines(server)
  {
    lines := [TableHeader(name)];
    if Given(server.command) { lines := lines + ["command = " + TomlString(server.command.value)]; }
    if Given(server.url) { lines := lines + ["url = " + TomlString(server.url.value)]; }
    if server.args != [] { lines := lines + ["args = [" + CommaList(Written(server.args)) + "]"]; }
  }

  /** planCodexMcpConfig, on the text of the file. */
  method PlanConfig(current: string, server: Server, name: string) returns (r: Result<string, ConfigError>)
    ensures r == Planned(current, server, name)
  {
    if !SafeName(name) { return Err(BadName); }
    if Given(server.command) == Given(server.url) { return Err(NotExactlyOne); }
    if HasHeader(current, TableHeader(name)) { return Err(AlreadyExists); }
    var lines := AllLines(server, name);
    match lines
    case Err(error) => return Err(error);
    case Ok(table) => return Ok(current + Separator(current) + (Join(table, '\n') + "\n"));
  }

  lemma {:induction false} Regroup(header: seq<string>, body: seq<string>, env: seq<string>)
    ensures header + body + env == header + (body + env)
    ensures body + [] == body
  {
  }

  method AllLines(server: Server, name: string) returns (r: Result<seq<string>, ConfigError>)
    ensures match FirstBadKey(SortStrings(Keys(server.env)))
            case Some(key) => r == Err(BadKey(key))
            case None => r == Ok(TableLines(server, name))
  {
    var lines := HeadLines(server, name);
    if server.env == [] {
      Regroup([TableHeader(name)], ServerLines(server), []);
      return Ok(lines);
    }
    var added := EnvTable(server.env, name);
    match added
    case Err(error) => return Err(error);
    case Ok(env) =>
      Regroup([TableHeader(name)], ServerLines(server), env);
      return Ok(lines + env);
  }

  /** The nested table of environment variables. */
  method EnvTable(env: seq<(string, string)>, name: string) returns (r: Result<seq<string>, ConfigError>)
    ensures var keys := SortStrings(Keys(env));
            match FirstBadKey(keys)
            case Some(key) => r == Err(BadKey(key))
            case None => r == Ok(["", TablePrefix(name) + ".env]"] + EnvLines(keys, env))
  {
    var keys := SortStrings(Keys(env));
    var lines := [];
    for i := 0 to |keys|
      invariant FirstBadKey(keys[..i]).None?
      invariant lines == EnvLines(keys[..i], env)
    {
      assert keys[..i + 1][..i] == keys[..i];
      if !SafeKey(keys[i]) {
        BadKeyStays(keys, i + 1);
        return Err(BadKey(keys[i]));
      }
      EnvLinesNext(keys, i, env);
      lines := lines + [keys[i] + " = " + TomlString(ValueOf(env, keys[i]))];
    }
    assert keys[..|keys|] == keys;
    return Ok(["", TablePrefix(name) + ".env]"] + lines);
  }

  lemma {:induction false} EnvLinesNext(keys: seq<string>, i: nat, env: seq<(string, string)>)
    requires i < |keys|
    ensures EnvLines(keys[..i + 1], env) == EnvLines(keys[..i], env)
            + [keys[i] + " = " + TomlString(ValueOf(env, keys[i]))]
  {
  }

  lemma {:induction false} BadKeyStays(keys: seq<string>, n: nat)
    requires 0 < n <= |keys| && FirstBadKey(keys[..n]).Some?
    ensures FirstBadKey(keys) == FirstBadKey(keys[..n])
    decreases |keys| - n
  {
    if n < |keys| {
      assert keys[..n + 1][..n] == keys[..n];
      BadKeyStays(keys, n + 1);
    } else {
      assert keys[..n] == keys;
    }
  }

  // ---- Removing ----

  /** Where t first occurs in s. */
  function IndexOf(s: string, t: string): (at: Option<nat>)
    ensures at.Some? ==> at.value <= |s| && t <= s[at.value..] && forall k | 0 <= k < at.value :: !(t <= s[k..])
    ensures at.None? ==> forall k | 0 <= k <= |s| :: !(t <= s[k..])
  {
    if t <= s then Some(0)
    else if s == "" then None
    else
      match IndexOf(s[1..], t)
      case None =>
        assert forall k | 0 < k <= |s| :: s[k..] == s[1..][k - 1..];
        None
      case Some(at) =>
        assert forall k | 0 < k <= at + 1 :: s[k..] == s[1..][k - 1..];
        Some(at + 1)
  }

  /** replace with a string: only the first occurrence goes. */
  function RemoveFirst(s: string, t: string): string {
    match IndexOf(s, t)
    case None => s
    case Some(at) => s[..at] + s[at + |t|..]
  }

  /** Runs of three and more line feeds become two; run is how many came just before. */
  function Collapse(s: string, run: nat): string
    decreases |s|
  {
    if s == "" then ""
    else if s[0] != '\n' then [s[0]] + Collapse(s[1..], 0)
    else if run < 2 then "\n" + Collapse(s[1..], run + 1)
    else Collapse(s[1..], run + 1)
  }

  /** removeCodexMcpServerBlock. */
  function RemoveServerBlock(content: string, name: string): Result<string, ConfigError> {
    match ServerBlock(content, name)
    case Err(error) => Err(error)
    case Ok(None) => Ok(content)
    case Ok(Some(block)) => Ok(Collapse(RemoveFirst(content, block), 0))
  }

  // ---- What is written ----

  /** Nothing but letters, digits and the others. */
  ghost predicate Letters(s: string, others: set<char>) {
    forall i | 0 <= i < |s| ::
      'a' <= s[i] <= 'z' || 'A' <= s[i] <= 'Z' || '0' <= s[i] <= '9' || s[i] in others
  }

  ghost predicate Nonempty(value: Option<string>) {
    value.Some? && |value.value| > 0
  }

  lemma {:induction false} SafeNameExactly(name: string)
    ensures SafeName(name) <==> 1 <= |name| <= 128 && Letters(name, {'.', '_', '-'})
  {
  }

  lemma {:induction false} SafeKeyExactly(key: string)
    ensures SafeKey(key) <==> key != "" && !('0' <= key[0] <= '9') && Letters(key, {'_'})
  {
  }

  predicate Distinct(env: seq<(string, string)>) {
    forall i, j | 0 <= i < j < |env| :: env[i].0 != env[j].0
  }

  /** Each variable keeps its own value. */
  lemma {:induction false} ValueOfEach(env: seq<(string, string)>, i: nat)
    requires Distinct(env) && i < |env|
    ensures ValueOf(env, env[i].0) == env[i].1
  {
    if i < |env| - 1 {
      assert env[..|env| - 1][i] == env[i];
      ValueOfEach(env[..|env| - 1], i);
    }
  }

  lemma {:induction false} SortedHas(keys: seq<string>)
    ensures forall k :: k in SortStrings(keys) <==> k in keys
  {
    SortKeepsMultiset(keys);
    forall k ensures k in SortStrings(keys) <==> k in keys {
      assert k in multiset(SortStrings(keys)) <==> k in multiset(keys);
    }
  }

  lemma {:induction false} BadKeyIsFirst(keys: seq<string>)
    requires FirstBadKey(keys).Some?
    ensures exists i :: 0 <= i < |keys| && keys[i] == FirstBadKey(keys).value && !SafeKey(keys[i])
                        && forall j | 0 <= j < i :: SafeKey(keys[j])
  {
    var init := keys[..|keys| - 1];
    if FirstBadKey(init).Some? {
      BadKeyIsFirst(init);
      var i :| 0 <= i < |init| && init[i] == FirstBadKey(init).value && !SafeKey(init[i])
               && forall j | 0 <= j < i :: SafeKey(init[j]);
      assert keys[i] == init[i] && forall j | 0 <= j < i :: SafeKey(keys[j]);
    } else {
      assert forall j | 0 <= j < |init| :: SafeKey(init[j]) && keys[j] == init[j];
    }
  }

  lemma {:induction false} KeysSafeExactly(env: seq<(string, string)>)
    ensures FirstBadKey(SortStrings(Keys(env))).None? <==> forall i | 0 <= i < |env| :: SafeKey(env[i].0)
  {
    var keys, sorted := Keys(env), SortStrings(Keys(env));
    SortedHas(keys);
    if forall i | 0 <= i < |env| :: SafeKey(env[i].0) {
      forall i | 0 <= i < |sorted| ensures SafeKey(sorted[i]) {
        assert sorted[i] in keys;
      }
    } else {
      var i :| 0 <= i < |env| && !SafeKey(env[i].0);
      assert keys[i] in sorted;
    }
  }

  /** The variable that is reported is a bad one, and no bad one sorts before it. */
  lemma {:induction false} ReportsLeast(current: string, server: Server, name: string, key: string)
    requires Planned(current, server, name) == Err(BadKey(key))
    ensures key in Keys(server.env) && !SafeKey(key)
    ensures forall i | 0 <= i < |server.env| && !SafeKey(server.env[i].0) :: StringLe(key, server.env[i].0)
  {
    var keys, sorted := Keys(server.env), SortStrings(Keys(server.env));
    SortedHas(keys);
    SortIsSorted(keys);
    BadKeyIsFirst(sorted);
    var at :| 0 <= at < |sorted| && sorted[at] == key && !SafeKey(key) && forall j | 0 <= j < at :: SafeKey(sorted[j]);
    assert sorted[at] in sorted;
    forall i | 0 <= i < |server.env| && !SafeKey(server.env[i].0) ensures StringLe(key, server.env[i].0) {
      assert keys[i] in sorted;
      var j :| 0 <= j < |sorted| && sorted[j] == keys[i];
    }
  }

  /** A plan is refused for a bad name, for both or neither of command and URL, for a table that is
      there already, and for a bad name of a variable, in this order; removal for a bad name only. */
  lemma {:induction false} RefusesExactly(current: string, server: Server, name: string)
    ensures var named := 1 <= |name| <= 128 && Letters(name, {'.', '_', '-'});
            var single := Nonempty(server.command) != Nonempty(server.url);
            var keyed := forall i | 0 <= i < |server.env| ::
                           var key := server.env[i].0; key != "" && !('0' <= key[0] <= '9') && Letters(key, {'_'});
            && (Planned(current, server, name) == Err(BadName) <==> !named)
            && (RemoveServerBlock(current, name) == Err(BadName) <==> !named)
            && (Planned(current, server, name) == Err(NotExactlyOne) <==> named && !single)
            && (Planned(current, server, name) == Err(AlreadyExists)
                <==> named && single && HasHeader(current, "[mcp_servers." + TomlString(name) + "]"))
            && (Planned(current, server, name).Ok?
                <==> named && single && !HasHeader(current, "[mcp_servers." + TomlString(name) + "]") && keyed)
  {
    SafeNameExactly(name);
    KeysSafeExactly(server.env);
    forall i | 0 <= i < |server.env| {
      SafeKeyExactly(server.env[i].0);
    }
  }

  lemma {:induction false} CommaListIs(parts: seq<string>, last: string)
    ensures CommaList([last]) == last
    ensures parts != [] ==> CommaList(parts + [last]) == CommaList(parts) + ", " + last
  {
    if parts != [] { assert (parts + [last])[..|parts|] == parts; }
  }

  /** The table of a server that has a command or a URL, line by line. */
  lemma {:induction false} TableSays(server: Server, name: string)
    requires Given(server.command) != Given(server.url)
    ensures var lines, q := TableLines(server, name), TomlString(name);
            var top := if server.args == [] then 2 else 3;
            && |lines| == top + (if server.env == [] then 0 else 2 + |SortStrings(Keys(server.env))|)
            && lines[0] == "[mcp_servers." + q + "]"
            && (Given(server.command) ==> lines[1] == "command = " + TomlString(server.command.value))
            && (Given(server.url) ==> lines[1] == "url = " + TomlString(server.url.value))
            && (server.args != [] ==> lines[2] == "args = [" + CommaList(Written(server.args)) + "]")
            && (server.env != [] ==> lines[top] == "" && lines[top + 1] == "[mcp_servers." + q + ".env]")
  {
  }

  /** Below the header of its own table each environment variable has a line, in the order of the names. */
  lemma {:induction false} EnvTableSays(server: Server, name: string, i: nat)
    requires Given(server.command) != Given(server.url) && server.env != []
    requires i < |SortStrings(Keys(server.env))|
    ensures var lines, keys := TableLines(server, name), SortStrings(Keys(server.env));
            var top := if server.args == [] then 2 else 3;
            |lines| == top + 2 + |keys|
            && lines[top + 2 + i] == keys[i] + " = " + TomlString(ValueOf(server.env, keys[i]))
  {
    TopLines(server, name);
    EnvBelow(server, name, i);
    Regrouped([TableHeader(name)], ServerLines(server), EnvTableLines(server, name));
    AtEnd([TableHeader(name)] + ServerLines(server), EnvTableLines(server, name), 2 + i);
  }

  lemma {:induction false} EnvBelow(server: Server, name: string, i: nat)
    requires server.env != [] && i < |SortStrings(Keys(server.env))|
    ensures var lines, keys := EnvTableLines(server, name), SortStrings(Keys(server.env));
            |lines| == 2 + |keys| && lines[2 + i] == keys[i] + " = " + TomlString(ValueOf(server.env, keys[i]))
  {
    AtEnd(["", TablePrefix(name) + ".env]"], EnvLines(SortStrings(Keys(server.env)), server.env), i);
  }

  lemma {:induction false} TopLines(server: Server, name: string)
    requires Given(server.command) != Given(server.url)
    ensures |[TableHeader(name)] + ServerLines(server)| == if server.args == [] then 2 else 3
  {
  }

  lemma {:induction false} Regrouped(top: seq<string>, middle: seq<string>, end: seq<string>)
    ensures top + (middle + end) == top + middle + end
  {
  }

  lemma {:induction false} AtEnd(above: seq<string>, below: seq<string>, i: nat)
    requires i < |below|
    ensures (above + below)[|above| + i] == below[i]
  {
  }

  /** The text of the file without a line feed at its end. */
  function Unended(text: string): string {
    if text != "" && text[|text| - 1] == '\n' then text[..|text| - 1] else text
  }

  /** The new table stands alone, or one blank line below what was there. */
  lemma {:induction false} PlannedBelow(current: string, server: Server, name: string)
    requires Planned(current, server, name).Ok?
    ensures Planned(current, server, name).value
            == if current == "" then TableText(server, name)
               else Unended(current) + "\n\n" + TableText(server, name)
  {
    BlankBelow(current, TableText(server, name));
  }

  lemma {:induction false} BlankBelow(current: string, table: string)
    ensures current + Separator(current) + table
            == if current == "" then table else Unended(current) + "\n\n" + table
  {
    if current != "" && current[|current| - 1] == '\n' {
      assert current == Unended(current) + "\n";
      assert current + "\n" + table == Unended(current) + "\n\n" + table;
    }
  }

  /** Some two line feeds are followed by a third. */
  predicate HasTriple(s: string) {
    exists i | 0 <= i <= |s| - 3 :: s[i] == '\n' && s[i + 1] == '\n' && s[i + 2] == '\n'
  }

  lemma {:induction false} RunSaturates(s: string, run: nat)
    requires run >= 2
    ensures Collapse(s, run) == Collapse(s, 2)
    decreases |s|
  {
    if s != "" && s[0] == '\n' {
      RunSaturates(s[1..], run + 1);
      RunSaturates(s[1..], 3);
    }
  }

  lemma {:induction false} TripleBelow(c: char, t: string)
    requires HasTriple([c] + t)
    ensures HasTriple(t) || (c == '\n' && |t| >= 2 && t[0] == '\n' && t[1] == '\n')
  {
    var u := [c] + t;
    var i :| 0 <= i <= |u| - 3 && u[i] == '\n' && u[i + 1] == '\n' && u[i + 2] == '\n';
    if i > 0 { assert t[i - 1] == '\n' && t[i] == '\n' && t[i + 1] == '\n'; }
  }

  lemma {:induction false} NoTripleCons(c: char, t: string)
    requires !HasTriple(t) && (c != '\n' || |t| < 2 || t[0] != '\n' || t[1] != '\n')
    ensures !HasTriple([c] + t)
  {
    if HasTriple([c] + t) { TripleBelow(c, t); }
  }

  lemma {:induction false} CollapsedHasNoTriple(s: string, run: nat)
    requires run <= 2
    ensures var t := Collapse(s, run);
            && !HasTriple(t)
            && (run == 2 ==> t == "" || t[0] != '\n')
            && (run == 1 && |t| >= 2 ==> t[0] != '\n' || t[1] != '\n')
    decreases |s|
  {
    if s != "" {
      if s[0] != '\n' {
        CollapsedHasNoTriple(s[1..], 0);
        NoTripleCons(s[0], Collapse(s[1..], 0));
      } else if run < 2 {
        CollapsedHasNoTriple(s[1..], run + 1);
        NoTripleCons('\n', Collapse(s[1..], run + 1));
      } else {
        RunSaturates(s[1..], run + 1);
        CollapsedHasNoTriple(s[1..], 2);
      }
    }
  }

  function Feeds(n: nat): string {
    if n == 0 then "" else "\n" + Feeds(n - 1)
  }

  lemma {:induction false} FeedsNext(n: nat, rest: string)
    ensures |Feeds(n)| == n && (forall i | 0 <= i < n :: Feeds(n)[i] == '\n')
    ensures Feeds(n) + "\n" + rest == Feeds(n + 1) + rest
  {
    if n > 0 {
      FeedsNext(n - 1, rest);
      assert Feeds(n) + "\n" + rest == "\n" + (Feeds(n - 1) + "\n" + rest);
      assert "\n" + (Feeds(n) + rest) == Feeds(n + 1) + rest;
    } else {
      assert Feeds(0) + "\n" + rest == Feeds(1) + rest;
    }
  }

  lemma {:induction false} TripleInSuffix(front: string, s: string)
    requires HasTriple(s)
    ensures HasTriple(front + s)
  {
    var u := front + s;
    var i :| 0 <= i <= |s| - 3 && s[i] == '\n' && s[i + 1] == '\n' && s[i + 2] == '\n';
    var j := |front| + i;
    assert u[j] == s[i] && u[j + 1] == s[i + 1] && u[j + 2] == s[i + 2];
  }

  lemma {:induction false} ThirdFeed(s: string)
    requires s != "" && s[0] == '\n'
    ensures HasTriple(Feeds(2) + s)
  {
    var u := Feeds(2) + s;
    FeedsNext(2, s);
    assert u[0] == '\n' && u[1] == '\n' && u[2] == s[0];
  }

  lemma {:induction false} UncollapsedStays(s: string, run: nat)
    requires !HasTriple(Feeds(run) + s) && run <= 2
    ensures Collapse(s, run) == s
    decreases |s|
  {
    if s != "" {
      FeedsNext(run, s[1..]);
      assert s == [s[0]] + s[1..];
      if s[0] == '\n' {
        assert Feeds(run) + s == Feeds(run) + "\n" + s[1..];
        ThirdFeed(s);
        UncollapsedStays(s[1..], run + 1);
      } else {
        assert Feeds(run) + s == (Feeds(run) + [s[0]]) + s[1..];
        if HasTriple(s[1..]) { TripleInSuffix(Feeds(run) + [s[0]], s[1..]); }
        assert Feeds(0) + s[1..] == s[1..];
        UncollapsedStays(s[1..], 0);
      }
    }
  }

  /** Three line feeds in a row are what collapsing takes away, and it changes nothing else. */
  lemma {:induction false} CollapseExactly(s: string)
    ensures !HasTriple(Collapse(s, 0))
    ensures Collapse(s, 0) == s <==> !HasTriple(s)
  {
    CollapsedHasNoTriple(s, 0);
    if !HasTriple(s) {
      assert Feeds(0) + s == s;
      UncollapsedStays(s, 0);
    }
  }

  /** Removal takes out the first occurrence of the text found, and of line feeds no more than it must
      to leave no three in a row. */
  lemma {:induction false} RemovesExactly(content: string, name: string, block: string)
    requires ServerBlock(content, name) == Ok(Some(block))
    ensures RemoveServerBlock(content, name).Ok?
    ensures var r := RemoveServerBlock(content, name).value;
            && !HasTriple(r)
            && forall at: nat | OccursFirst(content, block, at) ::
                 var rest := content[..at] + content[at + |block|..]; r == rest <==> !HasTriple(rest)
  {
    CollapseExactly(RemoveFirst(content, block));
    forall at: nat | OccursFirst(content, block, at)
      ensures RemoveFirst(content, block) == content[..at] + content[at + |block|..]
    {
      FirstIsIndex(content, block, at);
    }
  }

  predicate OccursFirst(s: string, t: string, at: nat) {
    at + |t| <= |s| && t <= s[at..] && forall k | 0 <= k < at :: !(t <= s[k..])
  }

  lemma {:induction false} FirstIsIndex(s: string, t: string, at: nat)
    requires OccursFirst(s, t, at)
    ensures IndexOf(s, t) == Some(at)
  {
    if IndexOf(s, t).Some? {
      assert IndexOf(s, t).value <= at;
    }
  }
}
