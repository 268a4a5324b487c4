/** Reading back what was logged: rendered rows parse to themselves, up to runs of whitespace in their values. */
module LogLaws {
  import opened Options
  import opened Text
  import opened Whitespace
  import opened LogParser

  // ---- one entry per line ----

  /** The lines that hold more than whitespace. */
  function Filled(lines: seq<string>): seq<string> {
    if lines == [] then []
    else
      var line := lines[|lines| - 1];
      Filled(lines[..|lines| - 1]) + if exists i :: 0 <= i < |line| && !Space(line[i]) then [line] else []
  }

  /** The k-th entry is the k-th line that holds more than whitespace, and there are no others. */
  lemma {:induction false} OneEntryPerLine(lines: seq<string>)
    ensures |ParseLines(lines)| == |Filled(lines)|
    ensures forall k :: 0 <= k < |Filled(lines)| ==> ParseLines(lines)[k] == ParseLine(Filled(lines)[k])
  {
    hide ParseLine, Space;
    if lines != [] { OneEntryPerLine(lines[..|lines| - 1]); }
  }

  // ---- rows as they are written ----

  /** A key and its value, written in quotes or bare. */
  datatype Field = Field(key: string, value: string, bare: bool)

  datatype Row = Row(ts: string, level: string, words: seq<string>, attrs: seq<Field>)

  /** Quotes and backslashes behind a backslash. */
  function Escape(v: string): string {
    if v == "" then "" else EscapeChar(v[0]) + Escape(v[1..])
  }

  function EscapeChar(c: char): string {
    if c == '"' || c == '\\' then ['\\', c] else [c]
  }

  function Quoted(v: string): string { ['"'] + Escape(v) + ['"'] }

  function ValueText(a: Field): string { if a.bare then a.value else Quoted(a.value) }

  function AttrText(a: Field): string { a.key + ['='] + ValueText(a) }

  function Texts(attrs: seq<Field>): seq<string> {
    if attrs == [] then [] else [AttrText(attrs[0])] + Texts(attrs[1..])
  }

  function Rest(row: Row): string { Join(row.words + Texts(row.attrs), ' ') }

  function Render(row: Row): string { row.ts + [' '] + row.level + [' '] + Rest(row) }

  const LEVELS: set<string> := {"DEBUG", "INFO", "WARN", "ERROR"}

  /** A value that can be written bare: one word with no quote at its ends and no backslash. */
  predicate Plain(v: string) {
    v != "" && NoSpace(v, JavaScript) && v[0] != '"' && v[|v| - 1] != '"' && '\\' !in v
  }

  predicate Fit(a: Field) {
    IsKey(a.key) && (a.bare ==> Plain(a.value))
  }

  predicate Keyed(attrs: seq<Field>) {
    forall i :: 0 <= i < |attrs| ==> Fit(attrs[i])
  }

  /** The keys and values as they should be read. */
  function AttrsOf(attrs: seq<Field>): (r: seq<Attr>)
    ensures |r| == |attrs|
  {
    if attrs == [] then [] else [Attr(attrs[0].key, attrs[0].value)] + AttrsOf(attrs[1..])
  }

  predicate Worded(words: seq<string>) {
    AreWords(words, JavaScript) && forall i :: 0 <= i < |words| ==> !StartsAttr(words[i])
  }

  /** A row that fits on a line: a time, a level, words that look like no attribute, keys, and values of one line. */
  predicate Writable(row: Row) {
    row.ts != "" && NoSpace(row.ts, JavaScript) && row.level in LEVELS
    && Worded(row.words) && Keyed(row.attrs) && forall i :: 0 <= i < |row.attrs| ==> OneLine(row.attrs[i].value)
  }

  // ---- values ----

  lemma {:induction false} UnescapeEscape(v: string)
    ensures Unescape(Escape(v)) == v
  {
    if v != "" {
      var tail := v[1..];
      UnescapeEscape(tail);
      if v[0] == '"' || v[0] == '\\' {
        assert Escape(v)[2..] == Escape(tail);
      } else {
        assert Escape(v)[1..] == Escape(tail);
      }
    }
  }

  lemma {:induction false} ClosingEscape(v: string, rest: string)
    ensures Closing(Escape(v) + ['"'] + rest) == Some(|Escape(v)|)
  {
    var s := Escape(v) + ['"'] + rest;
    if v != "" {
      ClosingEscape(v[1..], rest);
      var shorter := Escape(v[1..]) + ['"'] + rest;
      if v[0] == '"' || v[0] == '\\' {
        assert s[2..] == shorter;
      } else {
        assert s[1..] == shorter;
      }
    }
  }

  lemma {:induction false} UnquoteQuoted(v: string)
    ensures Unquote(Quoted(v)) == Escape(v)
  {
  }

  /** Squeezing a value's whitespace and escaping it can be done in either order. */
  lemma {:induction false} SqueezeEscape(v: string, after: bool)
    ensures Squeeze(Escape(v), after, JavaScript) == Escape(Squeeze(v, after, JavaScript))
  {
    hide Squeeze, Escape, EscapeChar, IsSpace;
    NothingEscaped();
    SqueezeNone(after);
    if v != "" {
      var c, tail := v[0], v[1..];
      assert v == [c] + tail;
      EscapeNext(c, tail);
      SqueezeEscape(tail, Space(c));
      if Space(c) {
        SpaceUnescaped(c);
        SqueezeGap(c, tail, after);
        SqueezeGap(c, Escape(tail), after);
        EscapeNext(' ', Squeeze(tail, true, JavaScript));
        SpaceUnescaped(' ');
      } else {
        EscapedHasNoSpace(c);
        SqueezeWord([c], tail, after, JavaScript);
        SqueezeWord(EscapeChar(c), Escape(tail), after, JavaScript);
        EscapeNext(c, Squeeze(tail, false, JavaScript));
      }
    }
  }

  lemma {:induction false} NothingEscaped()
    ensures Escape("") == ""
  {
  }

  lemma {:induction false} SqueezeNone(after: bool)
    ensures Squeeze("", after, JavaScript) == ""
  {
  }

  lemma {:induction false} EscapeNext(c: char, tail: string)
    ensures Escape([c] + tail) == EscapeChar(c) + Escape(tail)
  {
  }

  lemma {:induction false} SpaceUnescaped(c: char)
    requires Space(c) || c == ' '
    ensures EscapeChar(c) == [c]
  {
  }

  lemma {:induction false} EscapedHasNoSpace(c: char)
    requires !Space(c)
    ensures EscapeChar(c) != "" && NoSpace(EscapeChar(c), JavaScript) && NoSpace([c], JavaScript)
  {
  }

  lemma {:induction false} SqueezeGap(c: char, tail: string, after: bool)
    requires Space(c)
    ensures Squeeze([c] + tail, after, JavaScript)
            == if after then Squeeze(tail, true, JavaScript) else [' '] + Squeeze(tail, true, JavaScript)
  {
  }

  // ---- attributes ----

  lemma {:induction false} KeyRunAt(key: string, rest: string)
    requires (forall i :: 0 <= i < |key| ==> IsKeyChar(key[i])) && (rest == "" || !IsKeyChar(rest[0]))
    ensures KeyRun(key + rest) == |key|
  {
    hide IsKeyChar;
    if key == "" {
      assert key + rest == rest;
    } else {
      assert (key + rest)[1..] == key[1..] + rest;
      KeyRunAt(key[1..], rest);
    }
  }

  lemma {:induction false} EqualsIsNoKey()
    ensures !IsKeyChar('=')
  {
  }

  lemma {:induction false} QuotedLength(v: string, rest: string)
    ensures ValueLength(Quoted(v) + rest) == |Quoted(v)|
  {
    hide Closing, Escape;
    assert (Quoted(v) + rest)[1..] == Escape(v) + ['"'] + rest;
    ClosingEscape(v, rest);
  }

  lemma {:induction false} BareLength(v: string, rest: string)
    requires Plain(v) && (rest == "" || Space(rest[0]))
    ensures ValueLength(v + rest) == |v|
  {
    hide IsSpace, NoSpace, WordEnd;
    WordEndAt(v, rest, JavaScript);
  }

  lemma {:induction false} MatchOfText(a: Field, rest: string)
    requires Fit(a) && (rest == "" || Space(rest[0]))
    ensures MatchAt(AttrText(a) + rest) == Some(Match(a.key, ValueText(a), |AttrText(a)|))
  {
    hide KeyRun, ValueLength, ValueText, StartsAttr, AttrText, Fit, Space;
    var s, k, text := AttrText(a) + rest, |a.key|, ValueText(a);
    KeyIsRead(a, rest);
    ValueIsRead(a, rest);
    ValueSomething(a);
  }

  /** Where the key of an attribute's text ends and its value stands. */
  lemma {:induction false} KeyIsRead(a: Field, rest: string)
    requires Fit(a)
    ensures var s, k, text := AttrText(a) + rest, |a.key|, ValueText(a);
            StartsAttr(s) && KeyRun(s) == k && |AttrText(a)| == k + 1 + |text|
            && s[..k] == a.key && s[k + 1..] == text + rest && s[k + 1..k + 1 + |text|] == text
  {
    EqualsIsNoKey();
    hide KeyRun, ValueText, IsKeyChar, Plain;
    var s, k, text := AttrText(a) + rest, |a.key|, ValueText(a);
    var after := ['='] + (text + rest);
    assert s == a.key + after;
    KeyRunAt(a.key, after);
    assert s[k + 1..] == text + rest;
  }

  lemma {:induction false} ValueSomething(a: Field)
    requires Fit(a)
    ensures ValueText(a) != ""
  {
  }

  lemma {:induction false} ValueIsRead(a: Field, rest: string)
    requires Fit(a) && (rest == "" || Space(rest[0]))
    ensures ValueLength(ValueText(a) + rest) == |ValueText(a)|
  {
    hide ValueLength, Quoted, Plain, Space;
    if a.bare { BareLength(a.value, rest); } else { QuotedLength(a.value, rest); }
  }

  lemma {:induction false} PlainUnescaped(v: string)
    requires '\\' !in v
    ensures Unescape(v) == v
  {
    if v != "" {
      assert '\\' !in v[1..];
      PlainUnescaped(v[1..]);
    }
  }

  /** A value's text reads as the value. */
  lemma {:induction false} ValueComesBack(a: Field)
    requires Fit(a)
    ensures Unescape(Unquote(ValueText(a))) == a.value
  {
    if a.bare {
      PlainUnescaped(a.value);
    } else {
      UnquoteQuoted(a.value);
      UnescapeEscape(a.value);
    }
  }

  lemma {:induction false} ScanSpace(s: string)
    ensures Scan([' '] + s) == Scan(s)
  {
  }

  lemma {:induction false} ScanText(a: Field, rest: string)
    requires Fit(a) && (rest == "" || Space(rest[0]))
    ensures Scan(AttrText(a) + rest) == [Attr(a.key, a.value)] + Scan(rest)
  {
    hide MatchAt, Unescape, Unquote, ValueText, Fit, Space;
    var s := AttrText(a) + rest;
    MatchOfText(a, rest);
    ValueComesBack(a);
    assert s[|AttrText(a)|..] == rest;
  }

  lemma {:induction false} TextsNext(attrs: seq<Field>)
    requires attrs != []
    ensures Join(Texts(attrs), ' ')
            == AttrText(attrs[0]) + if |attrs| == 1 then "" else [' '] + Join(Texts(attrs[1..]), ' ')
  {
  }

  /** The attributes written are the ones scanned, in order. */
  lemma {:induction false} ScanTexts(attrs: seq<Field>)
    requires Keyed(attrs)
    ensures Scan(Join(Texts(attrs), ' ')) == AttrsOf(attrs)
  {
    hide AttrText, Texts, Fit, Join, Scan;
    if attrs == [] {
      NoTexts();
    } else {
      var rest := Join(Texts(attrs[1..]), ' ');
      TextsNext(attrs);
      ScanTexts(attrs[1..]);
      NoTexts();
      SpaceIsSpace("", JavaScript);
      ScanText(attrs[0], if |attrs| == 1 then "" else [' '] + rest);
      ScanSpace(rest);
    }
  }

  lemma {:induction false} NoTexts()
    ensures Join(Texts([]), ' ') == "" && Scan("") == []
  {
  }

  /** The values with each run of whitespace as one space. */
  function Squeezed(attrs: seq<Field>): (r: seq<Field>)
    ensures |r| == |attrs|
  {
    if attrs == [] then []
    else [attrs[0].(value := Squeeze(attrs[0].value, false, JavaScript))] + Squeezed(attrs[1..])
  }

  lemma {:induction false} SqueezeText(a: Field, rest: string)
    requires Fit(a)
    ensures Squeeze(AttrText(a) + rest, false, JavaScript)
            == AttrText(a.(value := Squeeze(a.value, false, JavaScript))) + Squeeze(rest, false, JavaScript)
    ensures Fit(a.(value := Squeeze(a.value, false, JavaScript)))
  {
    hide Squeeze, Escape, IsKey, NoSpace;
    KeyHasNoSpace(a.key);
    if a.bare {
      WordAdds(a.key + ['='], a.value);
      SqueezeWord(AttrText(a), rest, false, JavaScript);
      PlainStays(a.value);
    } else {
      var open := a.key + ['='] + ['"'];
      SqueezeWord(open, Escape(a.value) + ['"'] + rest, false, JavaScript);
      assert AttrText(a) + rest == open + (Escape(a.value) + ['"'] + rest);
      SqueezeSnoc(Escape(a.value), '"', rest, false, JavaScript);
      SqueezeEscape(a.value, false);
    }
  }

  lemma {:induction false} WordAdds(a: string, b: string)
    requires NoSpace(a, JavaScript) && NoSpace(b, JavaScript)
    ensures NoSpace(a + b, JavaScript)
  {
  }

  lemma {:induction false} PlainStays(v: string)
    requires v != "" && NoSpace(v, JavaScript)
    ensures Squeeze(v, false, JavaScript) == v
  {
    hide NoSpace, Squeeze;
    SqueezeWord(v, "", false, JavaScript);
    SqueezeNone(false);
    assert v + "" == v;
  }

  lemma {:induction false} KeyHasNoSpace(key: string)
    requires IsKey(key)
    ensures NoSpace(key + ['='] + ['"'], JavaScript) && NoSpace(key + ['='], JavaScript) && NoSpace(key, JavaScript)
  {
  }

  /** Attributes written with squeezed values are the attributes written, squeezed. */
  lemma {:induction false} SqueezeTexts(attrs: seq<Field>)
    requires Keyed(attrs)
    ensures Squeeze(Join(Texts(attrs), ' '), false, JavaScript) == Join(Texts(Squeezed(attrs)), ' ')
  {
    hide AttrText, Texts, Fit, Join, Squeeze;
    NoTexts();
    SqueezeNothing(JavaScript);
    if attrs != [] {
      var more := Squeezed(attrs[1..]);
      var rest := Join(Texts(attrs[1..]), ' ');
      TextsNext(attrs);
      TextsNext(Squeezed(attrs));
      assert Squeezed(attrs)[1..] == more;
      SqueezeTexts(attrs[1..]);
      SqueezeText(attrs[0], if |attrs| == 1 then "" else [' '] + rest);
      if |attrs| > 1 {
        StartsWithKey(attrs[1..]);
        SqueezeOneSpace(rest);
      }
    }
  }

  lemma {:induction false} StartsWithKey(attrs: seq<Field>)
    requires attrs != [] && Keyed(attrs)
    ensures var s := Join(Texts(attrs), ' '); s != "" && !Space(s[0]) && !Space(s[|s| - 1])
    decreases |attrs|
  {
    hide AttrText, Space, Fit, Join, Texts;
    TextsNext(attrs);
    TextEnds(attrs[0]);
    if |attrs| > 1 { StartsWithKey(attrs[1..]); }
  }

  lemma {:induction false} TextEnds(a: Field)
    requires Fit(a)
    ensures var s := AttrText(a); s != "" && !Space(s[0]) && !Space(s[|s| - 1])
  {
    hide Escape, IsSpace;
    KeyHasNoSpace(a.key);
    QuoteIsNoSpace();
    assert AttrText(a)[0] == a.key[0];
  }

  lemma {:induction false} QuoteIsNoSpace()
    ensures !Space('"')
  {
  }

  lemma {:induction false} SqueezeOneSpace(s: string)
    requires s != "" && !Space(s[0])
    ensures Squeeze([' '] + s, false, JavaScript) == [' '] + Squeeze(s, false, JavaScript)
  {
  }

  // ---- lines ----

  lemma {:induction false} TextsLength(attrs: seq<Field>)
    ensures |Texts(attrs)| == |attrs|
  {
    if attrs != [] { TextsLength(attrs[1..]); }
  }

  /** The tokens of what follows the level: the message's words, then those of the attributes. */
  lemma {:induction false} TokensOf(words: seq<string>, attrs: seq<Field>)
    requires AreWords(words, JavaScript)
    ensures Words(Join(words + Texts(attrs), ' '), JavaScript) == words + Words(Join(Texts(attrs), ' '), JavaScript)
  {
    hide AreWords, Texts, Join, Words;
    TextsLength(attrs);
    NoTexts();
    SqueezeNothing(JavaScript);
    if attrs == [] {
      assert words + Texts(attrs) == words;
      WordsOfJoin(words, JavaScript);
      assert Texts([]) == Texts(attrs);
    } else if words == [] {
      assert words + Texts(attrs) == Texts(attrs);
    } else {
      JoinAdds(words, Texts(attrs));
      WordsInFront(words, Join(Texts(attrs), ' '), JavaScript);
    }
  }

  lemma {:induction false} FirstStartsAttr(attrs: seq<Field>)
    requires attrs != [] && Keyed(attrs)
    ensures var tokens := Words(Join(Texts(attrs), ' '), JavaScript); tokens != [] && StartsAttr(tokens[0])
  {
    hide Fit, Space, Words, StartsAttr, Join, Texts, AttrText;
    var s := Join(Texts(attrs), ' ');
    TextsNext(attrs);
    StartsWithKey(attrs);
    var text := AttrText(attrs[0]);
    assert s == text + s[|text|..];
    TextStartsAttr(attrs[0], s[|text|..]);
    NotASpace(s);
    WordFirst(s, JavaScript);
  }

  lemma {:induction false} TextStartsAttr(a: Field, rest: string)
    requires Fit(a)
    ensures var s := AttrText(a) + rest; StartsAttr(s[..WordEnd(s, JavaScript)])
  {
    hide Space, IsKey, StartsAttr, WordEnd, Escape, NoSpace;
    QuoteIsNoSpace();
    ValueSomething(a);
    FirstNoSpace(a);
    var s, c := AttrText(a) + rest, ValueText(a)[0];
    var open := a.key + ['='] + [c];
    assert s == open + s[|open|..];
    AttrWord(a.key, c, s[|open|..]);
  }

  lemma {:induction false} FirstNoSpace(a: Field)
    requires Fit(a)
    ensures ValueText(a) != "" && !Space(ValueText(a)[0])
  {
    QuoteIsNoSpace();
  }

  lemma {:induction false} NotASpace(s: string)
    requires s != "" && !Space(s[0])
    ensures !IsSpace(s[0], JavaScript)
  {
  }

  /** A word that begins with a key and the first character of a value starts an attribute. */
  lemma {:induction false} AttrWord(key: string, c: char, rest: string)
    requires IsKey(key) && !Space(c)
    ensures var s := key + ['='] + [c] + rest; StartsAttr(s[..WordEnd(s, JavaScript)])
  {
    EqualsIsNoKey();
    hide IsSpace, IsKeyChar, KeyRun, WordEnd, NoSpace;
    var open := key + ['='] + [c];
    var s := open + rest;
    KeyHasNoSpace(key);
    OneMoreLetter(key + ['='], c);
    WordReaches(open, rest);
    var n := WordEnd(s, JavaScript);
    var after := ['='] + s[|key| + 1..n];
    assert s[..n] == key + after;
    KeyRunAt(key, after);
  }

  lemma {:induction false} OneMoreLetter(word: string, c: char)
    requires NoSpace(word, JavaScript) && !Space(c)
    ensures NoSpace(word + [c], JavaScript)
  {
  }

  lemma {:induction false} WordReaches(front: string, rest: string)
    requires NoSpace(front, JavaScript)
    ensures WordEnd(front + rest, JavaScript) >= |front|
  {
    hide IsSpace;
    if front != "" {
      assert (front + rest)[1..] == front[1..] + rest;
      WordReaches(front[1..], rest);
    }
  }

  lemma {:induction false} MessageStops(words: seq<string>, tokens: seq<string>)
    requires (forall i :: 0 <= i < |words| ==> !StartsAttr(words[i])) && (tokens == [] || StartsAttr(tokens[0]))
    ensures MessageLength(words + tokens) == |words|
  {
    hide StartsAttr;
    if words == [] {
      assert words + tokens == tokens;
    } else {
      assert (words + tokens)[1..] == words[1..] + tokens;
      MessageStops(words[1..], tokens);
    }
  }

  /** What follows the level reads as the row's words and its squeezed attributes. */
  lemma {:induction false} RestIsRead(words: seq<string>, attrs: seq<Field>)
    requires Worded(words) && Keyed(attrs)
    ensures var tokens := Words(Join(words + Texts(attrs), ' '), JavaScript);
            var i := MessageLength(tokens);
            tokens[..i] == words && Scan(Join(tokens[i..], ' ')) == AttrsOf(Squeezed(attrs))
  {
    hide AreWords, StartsAttr, Texts, Join, Words, MessageLength, Scan, Space, Fit;
    var text := Join(Texts(attrs), ' ');
    var mine := Words(text, JavaScript);
    TokensOf(words, attrs);
    NoTexts();
    SqueezeNothing(JavaScript);
    if attrs == [] {
      assert text == "" by { assert attrs == []; }
      JoinNothing();
    } else {
      FirstStartsAttr(attrs);
      StartsWithKey(attrs);
      JoinedText(text);
      SqueezeTexts(attrs);
      KeysStay(attrs);
      ScanTexts(Squeezed(attrs));
    }
    MessageStops(words, mine);
    assert (words + mine)[..|words|] == words && (words + mine)[|words|..] == mine;
  }

  lemma {:induction false} JoinNothing()
    ensures Join([], ' ') == ""
  {
  }

  lemma {:induction false} JoinedText(text: string)
    requires text != "" && !Space(text[0]) && !Space(text[|text| - 1])
    ensures Join(Words(text, JavaScript), ' ') == Squeeze(text, false, JavaScript)
  {
    hide IsSpace, Words, Squeeze, Join;
    JoinedWordsAreSqueezed(text, false, JavaScript);
    NoGap(text, false, JavaScript);
    var joined := Join(Words(text, JavaScript), ' ');
    assert [] + joined == joined;
  }

  lemma {:induction false} KeysStay(attrs: seq<Field>)
    requires Keyed(attrs)
    ensures Keyed(Squeezed(attrs))
  {
    hide Fit, Squeeze;
    if attrs != [] {
      KeysStay(attrs[1..]);
      SqueezeText(attrs[0], "");
    }
  }

  // ---- the head ----

  lemma {:induction false} NotPrefix(p: string, s: string)
    requires p != "" && s != "" && p[0] != s[0]
    ensures !IsPrefix(p, s)
  {
  }

  lemma {:induction false} LevelIsFound(level: string, rest: string)
    requires level in LEVELS
    ensures LevelAt(level + rest) == Some(level) && !Space((level + rest)[0])
  {
    var s := level + rest;
    assert s[..|level|] == level && s[0] == level[0];
    assert IsPrefix(level, s);
    hide IsPrefix;
    if level != "DEBUG" { NotPrefix("DEBUG", s); }
    if level != "INFO" { NotPrefix("INFO", s); }
    if level != "WARN" { NotPrefix("WARN", s); }
    if level != "ERROR" { NotPrefix("ERROR", s); }
  }

  lemma {:induction false} OneSpace(rest: string)
    requires rest == "" || !Space(rest[0])
    ensures Spaces([' '] + rest) == 1
  {
  }

  /** A line cut at its first word and the one space behind it. */
  lemma {:induction false} FirstWordFound(ts: string, tail: string)
    requires ts != "" && NoSpace(ts, JavaScript) && tail != "" && !Space(tail[0])
    ensures var line := ts + [' '] + tail;
            WordEnd(line, JavaScript) == |ts| && Spaces(line[|ts|..]) == 1
            && line[..|ts|] == ts && line[|ts|..][1..] == tail
  {
    hide IsSpace, NoSpace, Spaces, WordEnd;
    var line := ts + [' '] + tail;
    assert line == ts + ([' '] + tail);
    SpaceIsSpace("", JavaScript);
    WordEndAt(ts, [' '] + tail, JavaScript);
    assert line[|ts|..] == [' '] + tail;
    OneSpace(tail);
  }

  /** A time, a space, a level: the rest decides. */
  lemma {:induction false} HeadOfParts(ts: string, level: string, after: string)
    requires ts != "" && NoSpace(ts, JavaScript) && level in LEVELS
    ensures HeadOf(ts + [' '] + (level + after))
            == match RestOf(after) { case None => None case Some(rest) => Some(Head(ts, level, rest)) }
  {
    hide NoSpace, LevelAt, Spaces, WordEnd, RestOf, Space;
    LevelIsFound(level, after);
    FirstWordFound(ts, level + after);
    assert (level + after)[|level|..] == after;
  }

  lemma {:induction false} HeadIsFound(ts: string, level: string, rest: string)
    requires ts != "" && NoSpace(ts, JavaScript) && level in LEVELS && (rest == "" || !Space(rest[0]))
    ensures HeadOf(ts + [' '] + level + [' '] + rest) == if OneLine(rest) then Some(Head(ts, level, rest)) else None
  {
    hide NoSpace, OneLine, RestOf, Space, HeadOf;
    assert ts + [' '] + level + [' '] + rest == ts + [' '] + (level + ([' '] + rest));
    HeadOfParts(ts, level, [' '] + rest);
    RestIsFound(rest);
  }

  lemma {:induction false} RestIsFound(rest: string)
    requires rest == "" || !Space(rest[0])
    ensures RestOf([' '] + rest) == if OneLine(rest) then Some(rest) else None
  {
    hide Space, OneLine, Spaces;
    OneSpace(rest);
    assert ([' '] + rest)[1..] == rest;
  }

  // ---- rows ----

  lemma {:induction false} OneLineAdds(a: string, b: string)
    requires OneLine(a) && OneLine(b)
    ensures OneLine(a + b)
  {
  }

  lemma {:induction false} WordIsOneLine(word: string)
    requires NoSpace(word, JavaScript)
    ensures OneLine(word)
  {
  }

  lemma {:induction false} EscapeIsOneLine(v: string)
    requires OneLine(v)
    ensures OneLine(Escape(v))
  {
    if v != "" {
      var head, tail := if v[0] == '"' || v[0] == '\\' then ['\\', v[0]] else [v[0]], v[1..];
      assert forall i :: 0 <= i < |tail| ==> tail[i] == v[i + 1];
      EscapeIsOneLine(tail);
      OneLineAdds(head, Escape(tail));
    }
  }

  lemma {:induction false} TextIsOneLine(a: Field)
    requires Fit(a) && OneLine(a.value)
    ensures OneLine(AttrText(a))
  {
    hide Escape, IsKey, NoSpace;
    KeyHasNoSpace(a.key);
    WordIsOneLine(a.key);
    EscapeIsOneLine(a.value);
    assert OneLine(['=']) && OneLine(['"']);
    OneLineAdds(['"'], Escape(a.value));
    OneLineAdds(['"'] + Escape(a.value), ['"']);
    OneLineAdds(a.key, ['=']);
    OneLineAdds(a.key + ['='], ValueText(a));
  }

  lemma {:induction false} JoinIsOneLine(parts: seq<string>)
    requires forall i :: 0 <= i < |parts| ==> OneLine(parts[i])
    ensures OneLine(Join(parts, ' '))
  {
    hide OneLine;
    if parts == [] {
      JoinNothing();
      assert OneLine("") by { NothingIsOneLine(); }
    } else if |parts| == 1 {
      assert parts == [parts[0]];
      JoinOne(parts[0]);
    } else {
      assert parts == [parts[0]] + parts[1..];
      JoinFirst(parts[0], parts[1..]);
      JoinIsOneLine(parts[1..]);
      NothingIsOneLine();
      OneLineAdds([' '], Join(parts[1..], ' '));
      OneLineAdds(parts[0], [' '] + Join(parts[1..], ' '));
    }
  }

  lemma {:induction false} NothingIsOneLine()
    ensures OneLine("") && OneLine([' '])
  {
  }

  lemma {:induction false} TextsAt(attrs: seq<Field>, i: nat)
    requires i < |attrs|
    ensures |Texts(attrs)| == |attrs| && Texts(attrs)[i] == AttrText(attrs[i])
  {
    hide AttrText;
    TextsLength(attrs);
    if i > 0 { TextsAt(attrs[1..], i - 1); }
  }

  lemma {:induction false} RestIsOneLine(row: Row)
    requires Writable(row)
    ensures OneLine(Rest(row)) && (Rest(row) == "" || !Space(Rest(row)[0]))
    ensures Rest(row) == "" <==> row.words == [] && row.attrs == []
  {
    hide OneLine, AttrText, Fit, NoSpace, Space, StartsAttr, Join, Texts;
    var parts := row.words + Texts(row.attrs);
    TextsLength(row.attrs);
    forall i | 0 <= i < |parts| ensures OneLine(parts[i]) {
      if i < |row.words| {
        WordIsOneLine(row.words[i]);
      } else {
        TextsAt(row.attrs, i - |row.words|);
        TextIsOneLine(row.attrs[i - |row.words|]);
      }
    }
    JoinIsOneLine(parts);
    if parts == [] {
      JoinNothing();
    } else {
      assert parts == [parts[0]] + parts[1..];
      if row.words == [] {
        assert parts == Texts(row.attrs);
        StartsWithKey(row.attrs);
      } else {
        FirstCharacter(row.words[0], parts[1..]);
      }
    }
  }

  lemma {:induction false} FirstCharacter(word: string, parts: seq<string>)
    requires word != "" && NoSpace(word, JavaScript)
    ensures var s := Join([word] + parts, ' '); s != "" && !Space(s[0])
  {
  }

  /** A row that was written parses to its time, level and message, and to its attributes in order with each run of
      whitespace in their values as one space. */
  lemma {:induction false} RowParses(row: Row)
    requires Writable(row)
    ensures ParseLine(Render(row)) == Entry(row.ts, row.level, Join(row.words, ' '), AttrsOf(Squeezed(row.attrs)))
    ensures !Blank(Render(row))
  {
    RestIsOneLine(row);
    FilledLine(row);
    hide HeadOf, Words, MessageLength, Scan, Rest, Worded, Keyed, OneLine, Blank, Space, NoSpace, Squeezed;
    HeadIsFound(row.ts, row.level, Rest(row));
    RestIsRead(row.words, row.attrs);
    assert Rest(row) == Join(row.words + Texts(row.attrs), ' ') by { RestIs(row); }
  }

  lemma {:induction false} RestIs(row: Row)
    ensures Rest(row) == Join(row.words + Texts(row.attrs), ' ')
  {
  }

  lemma {:induction false} FilledLine(row: Row)
    requires row.ts != "" && NoSpace(row.ts, JavaScript)
    ensures !Blank(Render(row))
  {
    hide Rest;
    assert Render(row)[0] == row.ts[0];
  }

  // ---- when a value comes back as it was ----

  /** Whitespace only as single spaces. */
  predicate SingleSpaced(v: string) {
    forall i :: 0 <= i < |v| && Space(v[i]) ==> v[i] == ' ' && (i > 0 ==> !Space(v[i - 1]))
  }

  lemma {:induction false} SqueezeShrinks(s: string, after: bool)
    ensures |Squeeze(s, after, JavaScript)| <= |s|
  {
    hide IsSpace;
    if s != "" { SqueezeShrinks(s[1..], IsSpace(s[0], JavaScript)); }
  }

  lemma {:induction false} SqueezeKeeps(s: string, after: bool)
    ensures Squeeze(s, after, JavaScript) == s <==> SingleSpaced(s) && !(after && s != "" && Space(s[0]))
  {
    hide IsSpace;
    if s != "" {
      var c, tail := s[0], s[1..];
      var squeezed := Squeeze(tail, Space(c), JavaScript);
      SqueezeKeeps(tail, Space(c));
      SqueezeShrinks(tail, Space(c));
      assert s == [c] + tail;
      SpacedTail(c, tail);
      if Space(c) && !after {
        HeadTail(' ', squeezed, c, tail);
        assert [' '] + squeezed == s <==> c == ' ' && squeezed == tail;
      }
      if !Space(c) { HeadTail(c, squeezed, c, tail); }
    }
  }

  lemma {:induction false} HeadTail(a: char, s: string, b: char, t: string)
    ensures [a] + s == [b] + t <==> a == b && s == t
  {
    if [a] + s == [b] + t {
      assert ([a] + s)[0] == ([b] + t)[0] && ([a] + s)[1..] == ([b] + t)[1..];
      assert ([a] + s)[1..] == s && ([b] + t)[1..] == t;
    }
  }

  lemma {:induction false} SpacedTail(c: char, tail: string)
    ensures SingleSpaced([c] + tail)
            <==> SingleSpaced(tail) && (Space(c) ==> c == ' ' && (tail == "" || !Space(tail[0])))
  {
    hide Space;
    var s := [c] + tail;
    if SingleSpaced(s) {
      forall i | 0 <= i < |tail| && Space(tail[i]) ensures tail[i] == ' ' && (i > 0 ==> !Space(tail[i - 1])) {
        assert s[i + 1] == tail[i] && s[i] == if i > 0 then tail[i - 1] else c;
      }
      if tail != "" && Space(tail[0]) { assert s[1] == tail[0] && s[0] == c; }
      assert s[0] == c;
    }
    if SingleSpaced(tail) && (Space(c) ==> c == ' ' && (tail == "" || !Space(tail[0]))) {
      forall i | 0 <= i < |s| && Space(s[i]) ensures s[i] == ' ' && (i > 0 ==> !Space(s[i - 1])) {
        if i > 1 { assert s[i] == tail[i - 1] && s[i - 1] == tail[i - 2]; }
        else if i == 1 { assert s[1] == tail[0] && s[0] == c; }
      }
    }
  }

  /** A row's attributes come back exactly when every value has whitespace only as single spaces. */
  lemma {:induction false} AttrsComeBack(row: Row)
    requires Writable(row)
    ensures ParseLine(Render(row)).attrs == AttrsOf(row.attrs)
            <==> forall i :: 0 <= i < |row.attrs| ==> SingleSpaced(row.attrs[i].value)
  {
    hide SingleSpaced, Squeezed, Writable, Render, ParseLine;
    RowParses(row);
    SqueezedIsSame(row.attrs);
    SameAttrs(row.attrs);
  }

  /** Two spaces in a value come back as one. */
  lemma {:induction false} TwoSpacesComeBackAsOne()
    ensures var row := Row("t", "INFO", ["m"], [Field("k", "a  b", false)]);
            Writable(row) && ParseLine(Render(row)).attrs == [Attr("k", "a b")] != AttrsOf(row.attrs)
  {
    var row := Row("t", "INFO", ["m"], [Field("k", "a  b", false)]);
    assert Writable(row) && Squeeze("a  b", false, JavaScript) == "a b";
    assert Squeezed(row.attrs) == [Field("k", "a b", false)];
    assert AttrsOf([Field("k", "a b", false)]) == [Attr("k", "a b")];
    assert AttrsOf(row.attrs)[0].value[2] == ' ';
    hide Writable, Render, ParseLine, Squeezed;
    RowParses(row);
  }

  lemma {:induction false} SameAttrs(attrs: seq<Field>)
    ensures AttrsOf(Squeezed(attrs)) == AttrsOf(attrs) <==> Squeezed(attrs) == attrs
  {
    hide Squeeze;
    if attrs != [] {
      var a, more := attrs[0], Squeezed(attrs[1..]);
      var head := a.(value := Squeeze(a.value, false, JavaScript));
      SameAttrs(attrs[1..]);
      assert Squeezed(attrs)[1..] == more && Squeezed(attrs)[0] == head;
      assert AttrsOf(attrs)[1..] == AttrsOf(attrs[1..]) && AttrsOf(Squeezed(attrs))[1..] == AttrsOf(more);
      assert AttrsOf(attrs)[0] == Attr(a.key, a.value) && AttrsOf(Squeezed(attrs))[0] == Attr(a.key, head.value);
      assert attrs == [a] + attrs[1..] && Squeezed(attrs) == [head] + more;
    }
  }

  lemma {:induction false} SqueezedIsSame(attrs: seq<Field>)
    ensures Squeezed(attrs) == attrs <==> forall i :: 0 <= i < |attrs| ==> SingleSpaced(attrs[i].value)
  {
    hide SingleSpaced, Squeeze;
    if attrs != [] {
      var a, tail := attrs[0], attrs[1..];
      SqueezedIsSame(tail);
      SqueezeKeeps(a.value, false);
      assert attrs == [a] + tail;
      if Squeezed(attrs) == attrs { assert Squeezed(attrs)[1..] == attrs[1..] && Squeezed(attrs)[0] == attrs[0]; }
      forall i | 0 <= i < |tail| ensures tail[i] == attrs[i + 1] {
      }
    }
  }

  // ---- whole logs ----

  function Lines(rows: seq<Row>): (r: seq<string>)
    ensures |r| == |rows|
  {
    if rows == [] then [] else Lines(rows[..|rows| - 1]) + [Render(rows[|rows| - 1])]
  }

  function Entries(rows: seq<Row>): seq<Entry> {
    if rows == [] then []
    else
      var row := rows[|rows| - 1];
      Entries(rows[..|rows| - 1]) + [Entry(row.ts, row.level, Join(row.words, ' '), AttrsOf(Squeezed(row.attrs)))]
  }

  lemma {:induction false} LinesParse(rows: seq<Row>)
    requires forall i :: 0 <= i < |rows| ==> Writable(rows[i])
    ensures ParseLines(Lines(rows)) == Entries(rows)
    ensures forall i :: 0 <= i < |rows| ==> '\n' !in Lines(rows)[i]
  {
    hide Writable, Render, ParseLine, Blank, Squeezed, Join;
    if rows != [] {
      var front, row := rows[..|rows| - 1], rows[|rows| - 1];
      LinesParse(front);
      RowParses(row);
      RenderIsOneLine(row);
    }
  }

  lemma {:induction false} RenderIsOneLine(row: Row)
    requires Writable(row)
    ensures '\n' !in Render(row)
  {
    RestIsOneLine(row);
    WordIsOneLine(row.ts);
    NothingIsOneLine();
    assert OneLine(row.level);
    hide OneLine, Rest, NoSpace, Worded, Keyed;
    OneLineAdds(row.ts, [' ']);
    OneLineAdds(row.ts + [' '], row.level);
    OneLineAdds(row.ts + [' '] + row.level, [' ']);
    OneLineAdds(row.ts + [' '] + row.level + [' '], Rest(row));
    NoNewline(Render(row));
  }

  lemma {:induction false} NoNewline(s: string)
    requires OneLine(s)
    ensures '\n' !in s
  {
  }

  /** A log written row by row parses to one entry per row. */
  lemma {:induction false} LogRoundTrip(rows: seq<Row>)
    requires forall i :: 0 <= i < |rows| ==> Writable(rows[i])
    ensures ParseLines(Split(Join(Lines(rows), '\n'), '\n')) == Entries(rows)
  {
    hide Writable, ParseLine, Entries, Lines;
    LinesParse(rows);
    if rows == [] {
      EmptyLog();
    } else {
      SplitJoin(Lines(rows), '\n');
    }
  }

  lemma {:induction false} EmptyLog()
    ensures ParseLines([""]) == [] && ParseLines([]) == [] && Entries([]) == [] && Lines([]) == []
    ensures Split("", '\n') == [""] && Join([], '\n') == ""
  {
  }

  lemma {:induction false} FilledRowHidden(row: Row)
    requires Writable(row) && (row.words != [] || row.attrs != [])
    ensures var line := Render(row) + ['\r']; ParseLine(line) == Entry("", "", line, [])
  {
    RestIsOneLine(row);
    hide Rest, Worded, Keyed, NoSpace, Space, HeadOf;
    var rest := Rest(row) + ['\r'];
    assert rest[|rest| - 1] == '\r' && !OneLine(rest);
    assert Render(row) + ['\r'] == row.ts + [' '] + row.level + [' '] + rest;
    HeadIsFound(row.ts, row.level, rest);
  }

  lemma {:induction false} BareRowStays(row: Row)
    requires Writable(row) && row.words == [] && row.attrs == []
    ensures ParseLine(Render(row) + ['\r']) == Entry(row.ts, row.level, "", [])
  {
    hide HeadOf, Worded, Keyed, NoSpace;
    assert Rest(row) == "";
    assert Render(row) + ['\r'] == row.ts + [' '] + row.level + [' '] + ['\r'];
    BareHead(row.ts, row.level);
    NothingElse();
  }

  lemma {:induction false} NothingElse()
    ensures Words("", JavaScript) == [] && MessageLength([]) == 0 && Join([], ' ') == "" && Scan("") == []
    ensures AttrsOf(Squeezed([])) == []
  {
  }

  /** A carriage return at the end of a row is part of the rest, which then does not match: the whole line becomes the
      message. Only behind the level of a row without words and attributes is it one more space, and changes nothing. */
  lemma {:induction false} CarriageReturnHidesTheRow(row: Row)
    requires Writable(row)
    ensures var line := Render(row) + ['\r'];
            (ParseLine(line) == ParseLine(Render(row)) <==> row.words == [] && row.attrs == [])
            && (row.words != [] || row.attrs != [] ==> ParseLine(line) == Entry("", "", line, []))
  {
    HasTime(row);
    hide Writable, Render, ParseLine, Squeezed;
    RowParses(row);
    if row.words == [] && row.attrs == [] {
      BareRowStays(row);
      NothingElse();
    } else {
      FilledRowHidden(row);
    }
  }

  lemma {:induction false} HasTime(row: Row)
    requires Writable(row)
    ensures row.ts != ""
  {
  }

  lemma {:induction false} TwoSpaces()
    ensures Spaces([' ', '\r']) == 2 && Space('\r')
  {
    assert [' ', '\r'][1..] == ['\r'] && ['\r'][1..] == [];
  }

  /** The space behind the level and the carriage return match as whitespace, and nothing is left. */
  lemma {:induction false} BareHead(ts: string, level: string)
    requires ts != "" && NoSpace(ts, JavaScript) && level in LEVELS
    ensures HeadOf(ts + [' '] + level + [' '] + ['\r']) == Some(Head(ts, level, ""))
  {
    hide NoSpace, Spaces, HeadOf;
    assert ts + [' '] + level + [' '] + ['\r'] == ts + [' '] + (level + [' ', '\r']);
    HeadOfParts(ts, level, [' ', '\r']);
    TwoSpaces();
    assert [' ', '\r'][2..] == "";
  }
}
