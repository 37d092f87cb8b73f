/** String values in the Codex configuration: written as JSON (section 7 of RFC 8259), read as
    basic strings of TOML v1.0.0 (section "String"). */
module TomlStrings {
  import opened Wrappers

  const DEL := '\U{7F}'

  function HexDigit(n: nat): char
    requires n < 16
  {
    if n < 10 then ('0' as int + n) as char else ('a' as int + n - 10) as char
  }

  /** How JSON.stringify writes one character. */
  function EscapeChar(c: char): string {
    if c == '"' then "\\\""
    else if c == '\\' then "\\\\"
    else if c == '\U{08}' then "\\b"
    else if c == '\U{0C}' then "\\f"
    else if c == '\n' then "\\n"
    else if c == '\r' then "\\r"
    else if c == '\t' then "\\t"
    else if c < '\U{10}' then "\\u000" + [HexDigit(c as int)]
    else if c < ' ' then "\\u001" + [HexDigit(c as int - 16)]
    else [c]
  }

  function EscapeAll(s: string): string {
    if s == "" then "" else EscapeChar(s[0]) + EscapeAll(s[1..])
  }

  function TomlString(value: string): string {
    "\"" + EscapeAll(value) + "\""
  }

  // ---- Reading ----

  function HexValue(c: char): Option<nat> {
    if '0' <= c <= '9' then Some(c as int - '0' as int)
    else if 'a' <= c <= 'f' then Some(c as int - 'a' as int + 10)
    else if 'A' <= c <= 'F' then Some(c as int - 'A' as int + 10)
    else None
  }

  function HexNumber(digits: string): Option<nat> {
    if digits == "" then Some(0)
    else
      match (HexNumber(digits[..|digits| - 1]), HexValue(digits[|digits| - 1]))
      case (Some(high), Some(low)) => Some(16 * high + low)
      case _ => None
  }

  /** Unicode escapes denote scalar values only. */
  function Scalar(digits: string): Option<char> {
    match HexNumber(digits)
    case None => None
    case Some(n) => if n < 0xD800 || 0xE000 <= n < 0x11_0000 then Some(n as char) else None
  }

  function Simple(c: char): Option<char> {
    if c == 'b' then Some('\U{08}')
    else if c == 't' then Some('\t')
    else if c == 'n' then Some('\n')
    else if c == 'f' then Some('\U{0C}')
    else if c == 'r' then Some('\r')
    else if c == '"' then Some('"')
    else if c == '\\' then Some('\\')
    else None
  }

  /** Characters that stand for themselves: tab, and everything from space on but the quotation
      mark, the backslash and delete. */
  predicate Unescaped(c: char) {
    c == '\t' || (c >= ' ' && c != '"' && c != '\\' && c != DEL)
  }

  /** The first character a basic string's body denotes, and how much of the body it takes. */
  function FirstChar(s: string): (r: Option<(char, nat)>)
    requires s != ""
    ensures r.Some? ==> 0 < r.value.1 <= |s|
  {
    if Unescaped(s[0]) then Some((s[0], 1))
    else if s[0] != '\\' || |s| < 2 then None
    else if Simple(s[1]).Some? then Some((Simple(s[1]).value, 2))
    else if s[1] == 'u' && |s| >= 6 && Scalar(s[2..6]).Some? then Some((Scalar(s[2..6]).value, 6))
    else if s[1] == 'U' && |s| >= 10 && Scalar(s[2..10]).Some? then Some((Scalar(s[2..10]).value, 10))
    else None
  }

  function Unescape(s: string): Option<string>
    decreases |s|
  {
    if s == "" then Some("")
    else
      match FirstChar(s)
      case None => None
      case Some((c, n)) =>
        match Unescape(s[n..])
        case None => None
        case Some(rest) => Some([c] + rest)
  }

  function BasicString(text: string): Option<string> {
    if |text| >= 2 && text[0] == '"' && text[|text| - 1] == '"' then Unescape(text[1..|text| - 1]) else None
  }

  // ---- Round trip ----

  lemma {:induction false} ControlEscape(c: char, high: char, low: char, rest: string)
    requires c < ' ' && (high == '0' || high == '1') && c as int == (if high == '0' then 0 else 16) + HexDigitValue(low)
    requires HexValue(low) == Some(HexDigitValue(low))
    ensures var s := ['\\', 'u', '0', '0', high, low] + rest;
            Scalar(s[2..6]) == Some(c)
  {
    var four := ['0', '0', high, low];
    assert (['\\', 'u', '0', '0', high, low] + rest)[2..6] == four;
    assert four[..3] == ['0', '0', high] && four[..3][..2] == ['0', '0'] && four[..3][..2][..1] == ['0']
           && four[..3][..2][..1][..0] == [];
    assert HexNumber(['0']) == Some(0);
    assert HexNumber(['0', '0']) == Some(0);
    assert HexNumber(['0', '0', high]) == HexValue(high);
  }

  function HexDigitValue(low: char): nat {
    match HexValue(low)
    case Some(n) => n
    case None => 0
  }

  lemma {:induction false} CharReadsBack(c: char, rest: string)
    ensures var s := EscapeChar(c) + rest;
            FirstChar(s) == if c == DEL then None else Some((c, |EscapeChar(c)|))
  {
    if c < '\U{10}' {
      ControlEscape(c, '0', HexDigit(c as int), rest);
      assert "\\u000" + [HexDigit(c as int)] == ['\\', 'u', '0', '0', '0', HexDigit(c as int)];
    } else if c < ' ' {
      ControlEscape(c, '1', HexDigit(c as int - 16), rest);
      assert "\\u001" + [HexDigit(c as int - 16)] == ['\\', 'u', '0', '0', '1', HexDigit(c as int - 16)];
    }
  }

  /** JSON escapes no more than it must: a backslash and a letter for the five characters that have one,
      before quotation mark and backslash, four digits for the other controls, in lower case, and
      nothing else. */
  lemma {:induction false} EscapesSparingly(c: char)
    ensures |EscapeChar(c)| == if c in {'"', '\\', '\n', '\r', '\t', '\U{08}', '\U{0C}'} then 2
                               else if c < ' ' then 6 else 1
    ensures |EscapeChar(c)| == 1 ==> EscapeChar(c) == [c]
    ensures |EscapeChar(c)| > 1 ==> forall d | d in EscapeChar(c) :: !('A' <= d <= 'Z')
  {
  }

  lemma {:induction false} EscapedReadsBack(value: string)
    ensures Unescape(EscapeAll(value)) == if DEL in value then None else Some(value)
  {
    if value != "" {
      var c, rest := value[0], EscapeAll(value[1..]);
      EscapedReadsBack(value[1..]);
      CharReadsBack(c, rest);
      assert (EscapeChar(c) + rest)[|EscapeChar(c)|..] == rest;
      assert value == [c] + value[1..];
    }
  }

  /** A written value is read back as itself exactly when it has no delete character, which JSON
      leaves as it is and TOML forbids; otherwise it is no TOML string at all. */
  lemma {:induction false} ValueRoundTrip(value: string)
    ensures BasicString(TomlString(value)) == Some(value) <==> DEL !in value
    ensures DEL in value ==> BasicString(TomlString(value)) == None
  {
    var text := TomlString(value);
    assert text[1..|text| - 1] == EscapeAll(value);
    EscapedReadsBack(value);
  }

  // ---- What written values contain ----

  lemma {:induction false} EscapedCharacters(value: string)
    ensures forall c | c in EscapeAll(value) :: c >= ' ' && (c > '~' ==> c in value)
    ensures forall c | c in value && c > '~' :: c in EscapeAll(value)
  {
    if value != "" {
      EscapedCharacters(value[1..]);
      assert value == [value[0]] + value[1..];
      var first := EscapeChar(value[0]);
      assert forall c | c in first :: c >= ' ' && (c > '~' ==> c == value[0]);
      assert value[0] > '~' ==> value[0] in first;
    }
  }

  /** One printable line; the characters beyond ASCII are those of the value. */
  lemma {:induction false} WrittenCharacters(value: string)
    ensures forall c | c in TomlString(value) :: c >= ' ' && (c > '~' ==> c in value)
    ensures forall c | c in value && c > '~' :: c in TomlString(value)
    ensures |TomlString(value)| >= 2 && TomlString(value)[0] == '"' && TomlString(value)[|TomlString(value)| - 1] == '"'
  {
    EscapedCharacters(value);
  }

  lemma {:induction false} PlainIsVerbatim(value: string)
    requires forall i | 0 <= i < |value| :: ' ' <= value[i] && value[i] != '"' && value[i] != '\\'
    ensures EscapeAll(value) == value
  {
    if value != "" {
      assert value == [value[0]] + value[1..];
      PlainIsVerbatim(value[1..]);
    }
  }
}
