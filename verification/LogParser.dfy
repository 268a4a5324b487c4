/** The log viewer's parser: a line's time, level, message words and `key=value` attributes. */
module LogParser {
  import opened Options
  import opened Text
  import opened Whitespace

  datatype Attr = Attr(key: string, value: string)

  datatype Entry = Entry(ts: string, level: string, message: string, attrs: seq<Attr>)

  predicate Space(c: char) { IsSpace(c, JavaScript) }

  /** The characters that `.` does not match. */
  predicate IsTerminator(c: char) {
    c == '\n' || c == '\r' || c as int == 0x2028 || c as int == 0x2029
  }

  predicate OneLine(s: string) {
    forall i :: 0 <= i < |s| ==> !IsTerminator(s[i])
  }

  /** `[\w.-]` */
  predicate IsKeyChar(c: char) {
    'a' <= c <= 'z' || 'A' <= c <= 'Z' || '0' <= c <= '9' || c == '_' || c == '.' || c == '-'
  }

  predicate IsKey(s: string) {
    s != "" && forall i :: 0 <= i < |s| ==> IsKeyChar(s[i])
  }

  // ---- the line's head ----

  /** How much whitespace the text starts with. */
  function Spaces(s: string): (n: nat)
    ensures n <= |s|
  {
    if s == "" || !Space(s[0]) then 0 else 1 + Spaces(s[1..])
  }

  predicate IsPrefix(p: string, s: string) {
    |p| <= |s| && s[..|p|] == p
  }

  function LevelAt(s: string): (level: Option<string>)
    ensures level.Some? ==> |level.value| <= |s|
  {
    if IsPrefix("DEBUG", s) then Some("DEBUG")
    else if IsPrefix("INFO", s) then Some("INFO")
    else if IsPrefix("WARN", s) then Some("WARN")
    else if IsPrefix("ERROR", s) then Some("ERROR")
    else None
  }

  datatype Head = Head(ts: string, level: string, rest: string)

  /** `/\s+(.*)$/` */
  function RestOf(s: string): Option<string> {
    var d := Spaces(s);
    if d == 0 || !OneLine(s[d..]) then None else Some(s[d..])
  }

  /** `/^(\S+)\s+(DEBUG|INFO|WARN|ERROR)\s+(.*)$/` */
  function HeadOf(line: string): Option<Head> {
    var a := WordEnd(line, JavaScript);
    var b := Spaces(line[a..]);
    var tail := line[a..][b..];
    var level := LevelAt(tail);
    if a == 0 || b == 0 || level.None? then None
    else
      var rest := RestOf(tail[|level.value|..]);
      if rest.None? then None else Some(Head(line[..a], level.value, rest.value))
  }

  // ---- attributes ----

  /** How many key characters the text starts with. */
  function KeyRun(s: string): (n: nat)
    ensures n <= |s|
  {
    if s == "" || !IsKeyChar(s[0]) then 0 else 1 + KeyRun(s[1..])
  }

  /** `/^[\w.-]+=/` */
  predicate StartsAttr(s: string) {
    0 < KeyRun(s) < |s| && s[KeyRun(s)] == '='
  }

  /** How far it is to the quote that closes a quoted value, over plain characters and escaped ones. */
  function Closing(s: string): (n: Option<nat>)
    ensures n.Some? ==> n.value < |s|
    decreases |s|
  {
    if s == "" then None
    else if s[0] == '"' then Some(0)
    else if s[0] == '\\' then
      if |s| < 2 || IsTerminator(s[1]) then None
      else var n := Closing(s[2..]); if n.Some? then Some(n.value + 2) else None
    else var n := Closing(s[1..]); if n.Some? then Some(n.value + 1) else None
  }

  /** The length of a value at the start of the text: quoted, or else up to the next whitespace. */
  function ValueLength(s: string): (n: nat)
    ensures n <= |s|
  {
    var close := if s != "" && s[0] == '"' then Closing(s[1..]) else None;
    if close.Some? then close.value + 2 else WordEnd(s, JavaScript)
  }

  /** `.replace(/^"|"$/g, '')` */
  function Unquote(s: string): string {
    var t := if s != "" && s[0] == '"' then s[1..] else s;
    if t != "" && t[|t| - 1] == '"' then t[..|t| - 1] else t
  }

  /** `.replace(/\\(.)/g, '$1')` */
  function Unescape(s: string): string
    decreases |s|
  {
    if s == "" then ""
    else if s[0] == '\\' && |s| > 1 && !IsTerminator(s[1]) then [s[1]] + Unescape(s[2..])
    else [s[0]] + Unescape(s[1..])
  }

  datatype Match = Match(key: string, text: string, length: nat)

  /** `/([\w.-]+)=("(?:[^"\\]|\\.)*"|(?:\S+))/` at the start of the text. */
  function MatchAt(s: string): (m: Option<Match>)
    ensures m.Some? ==> 0 < m.value.length <= |s|
  {
    if !StartsAttr(s) then None
    else
      var k := KeyRun(s);
      var n := ValueLength(s[k + 1..]);
      if n == 0 then None else Some(Match(s[..k], s[k + 1..k + 1 + n], k + 1 + n))
  }

  function AttrOf(m: Match): Attr {
    Attr(m.key, Unescape(Unquote(m.text)))
  }

  /** Every match of the text, from left to right. */
  function Scan(s: string): seq<Attr>
    decreases |s|
  {
    if s == "" then []
    else
      var m := MatchAt(s);
      if m.None? then Scan(s[1..]) else [AttrOf(m.value)] + Scan(s[m.value.length..])
  }

  // ---- lines ----

  predicate Blank(line: string) {
    forall i :: 0 <= i < |line| ==> Space(line[i])
  }

  /** The number of tokens before the first that starts an attribute. */
  function MessageLength(tokens: seq<string>): (n: nat)
    ensures n <= |tokens|
  {
    if tokens == [] || StartsAttr(tokens[0]) then 0 else 1 + MessageLength(tokens[1..])
  }

  function ParseLine(line: string): Entry {
    match HeadOf(line)
    case None => Entry("", "", line, [])
    case Some(head) =>
      var tokens := Words(head.rest, JavaScript);
      var i := MessageLength(tokens);
      Entry(head.ts, head.level, Join(tokens[..i], ' '), Scan(Join(tokens[i..], ' ')))
  }

  function ParseLines(lines: seq<string>): seq<Entry> {
    if lines == [] then []
    else
      var line := lines[|lines| - 1];
      ParseLines(lines[..|lines| - 1]) + if Blank(line) then [] else [ParseLine(line)]
  }

  // ---- the loops ----

  /** `while ((am = re.exec(text)) !== null)`, with the pattern's own cursor. */
  method ReadAttrs(text: string) returns (attrs: seq<Attr>)
    ensures attrs == Scan(text)
  {
    hide MatchAt, Unescape, Unquote;
    attrs := [];
    var lastIndex := 0;
    while lastIndex < |text|
      invariant lastIndex <= |text| && attrs + Scan(text[lastIndex..]) == Scan(text)
    {
      var am := MatchAt(text[lastIndex..]);
      if am.None? {
        assert text[lastIndex..][1..] == text[lastIndex + 1..];
        lastIndex := lastIndex + 1;
      } else {
        assert text[lastIndex..][am.value.length..] == text[lastIndex + am.value.length..];
        attrs := attrs + [Attr(am.value.key, Unescape(Unquote(am.value.text)))];
        lastIndex := lastIndex + am.value.length;
      }
    }
  }

  /** The message's words, up to the first token that starts an attribute. */
  method SplitMessage(tokens: seq<string>) returns (messageParts: seq<string>, i: nat)
    ensures i == MessageLength(tokens) && messageParts == tokens[..i]
  {
    messageParts := [];
    i := 0;
    while i < |tokens|
      invariant i <= |tokens| && messageParts == tokens[..i] && i + MessageLength(tokens[i..]) == MessageLength(tokens)
    {
      assert tokens[i..][1..] == tokens[i + 1..];
      if StartsAttr(tokens[i]) { return; }
      messageParts := messageParts + [tokens[i]];
      i := i + 1;
    }
  }

  method ParseLog(raw: string) returns (out: seq<Entry>)
    ensures out == ParseLines(Split(raw, '\n'))
  {
    hide HeadOf, Words, MessageLength, Scan, Blank;
    var lines := Split(raw, '\n');
    out := [];
    for k := 0 to |lines|
      invariant out == ParseLines(lines[..k])
    {
      assert lines[..k + 1][..k] == lines[..k];
      var line := lines[k];
      if Blank(line) { continue; }
      var m := HeadOf(line);
      if m.None? {
        out := out + [Entry("", "", line, [])];
        continue;
      }
      var tokens := Words(m.value.rest, JavaScript);
      var messageParts, i := SplitMessage(tokens);
      var attrs := ReadAttrs(Join(tokens[i..], ' '));
      out := out + [Entry(m.value.ts, m.value.level, Join(messageParts, ' '), attrs)];
    }
    assert lines[..|lines|] == lines;
  }
}
