/** Splitting text at whitespace, and what joining the words with single spaces makes of it. */
module Whitespace {
  import opened Text

  /** Python's whitespace and JavaScript's differ in a few characters. */
  datatype Language = Python | JavaScript

  predicate IsSpace(c: char, lang: Language) {
    var n := c as int;
    9 <= n <= 13 || n == 32 || n == 0xA0 || n == 0x1680 || 0x2000 <= n <= 0x200A
    || n == 0x2028 || n == 0x2029 || n == 0x202F || n == 0x205F || n == 0x3000
    || (lang == Python && (28 <= n <= 31 || n == 0x85))
    || (lang == JavaScript && n == 0xFEFF)
  }

  predicate NoSpace(s: string, lang: Language) {
    forall i :: 0 <= i < |s| ==> !IsSpace(s[i], lang)
  }

  /** How far the first word reaches. */
  function WordEnd(s: string, lang: Language): (n: nat)
    ensures n <= |s| && NoSpace(s[..n], lang) && (n < |s| ==> IsSpace(s[n], lang))
  {
    if s == "" || IsSpace(s[0], lang) then 0
    else
      var n := WordEnd(s[1..], lang);
      assert s[..n + 1] == [s[0]] + s[1..][..n];
      n + 1
  }

  /** The runs of characters between whitespace. */
  function Words(s: string, lang: Language): seq<string> {
    if s == "" then []
    else if IsSpace(s[0], lang) then Words(s[1..], lang)
    else [s[..WordEnd(s, lang)]] + Words(s[WordEnd(s, lang)..], lang)
  }

  predicate AreWords(words: seq<string>, lang: Language) {
    forall i :: 0 <= i < |words| ==> words[i] != "" && NoSpace(words[i], lang)
  }

  lemma {:induction false} WordEndAt(word: string, rest: string, lang: Language)
    requires NoSpace(word, lang) && (rest == "" || IsSpace(rest[0], lang))
    ensures WordEnd(word + rest, lang) == |word|
  {
    hide IsSpace;
    if word == "" {
      assert word + rest == rest;
    } else {
      assert (word + rest)[1..] == word[1..] + rest;
      WordEndAt(word[1..], rest, lang);
    }
  }

  /** A word in front of whitespace is the first word. */
  lemma {:induction false} FirstWord(word: string, rest: string, lang: Language)
    requires word != "" && NoSpace(word, lang) && (rest == "" || IsSpace(rest[0], lang))
    ensures Words(word + rest, lang) == [word] + Words(rest, lang)
  {
    hide IsSpace;
    WordEndAt(word, rest, lang);
    assert (word + rest)[..|word|] == word && (word + rest)[|word|..] == rest;
  }

  lemma {:induction false} SpaceIsSpace(s: string, lang: Language)
    ensures IsSpace(' ', lang) && Words([' '] + s, lang) == Words(s, lang)
  {
  }

  /** Words in front of a text, with a space between, stay as they are. */
  lemma {:induction false} WordsInFront(words: seq<string>, rest: string, lang: Language)
    requires AreWords(words, lang) && words != []
    ensures Words(Join(words, ' ') + [' '] + rest, lang) == words + Words(rest, lang)
    decreases |words|
  {
    hide IsSpace, NoSpace, Words, Join;
    var word, more := words[0], words[1..];
    SpaceIsSpace(rest, lang);
    assert words == [word] + more;
    if more == [] {
      JoinOne(word);
      assert words == [word] && word + [' '] + rest == word + ([' '] + rest);
      FirstWord(word, [' '] + rest, lang);
    } else {
      WordsInFront(more, rest, lang);
      JoinFirst(word, more);
      var after := Join(more, ' ') + [' '] + rest;
      SpaceIsSpace(after, lang);
      assert Join(words, ' ') + [' '] + rest == word + ([' '] + after);
      FirstWord(word, [' '] + after, lang);
    }
  }

  /** The words of a single-space join are the ones joined. */
  lemma {:induction false} WordsOfJoin(words: seq<string>, lang: Language)
    requires AreWords(words, lang)
    ensures Words(Join(words, ' '), lang) == words
  {
    hide IsSpace, NoSpace;
    if |words| == 1 {
      FirstWord(words[0], "", lang);
      assert words[0] + "" == words[0];
    } else if words != [] {
      var front, last := words[..|words| - 1], words[|words| - 1];
      WordsInFront(front, last, lang);
      JoinLast(words);
      FirstWord(last, "", lang);
      assert last + "" == last && words == front + [last];
    }
  }

  lemma {:induction false} JoinLast(words: seq<string>)
    requires |words| > 1
    ensures Join(words, ' ') == Join(words[..|words| - 1], ' ') + [' '] + words[|words| - 1]
    decreases |words|
  {
    var front := words[..|words| - 1];
    if |words| > 2 {
      JoinLast(words[1..]);
      assert words[1..][..|words| - 2] == front[1..];
    }
  }

  lemma {:induction false} WordsAreWords(s: string, lang: Language)
    ensures AreWords(Words(s, lang), lang)
    decreases |s|
  {
    hide IsSpace, NoSpace;
    if s != "" && IsSpace(s[0], lang) {
      WordsAreWords(s[1..], lang);
    } else if s != "" {
      WordsAreWords(s[WordEnd(s, lang)..], lang);
    }
  }

  // ---- whitespace squeezed to single spaces ----

  /** Each run of whitespace as one space; `after` says that one was just written. */
  function Squeeze(s: string, after: bool, lang: Language): string {
    if s == "" then ""
    else if IsSpace(s[0], lang) then (if after then [] else [' ']) + Squeeze(s[1..], true, lang)
    else [s[0]] + Squeeze(s[1..], false, lang)
  }

  lemma {:induction false} SqueezeWord(word: string, rest: string, after: bool, lang: Language)
    requires NoSpace(word, lang) && word != ""
    ensures Squeeze(word + rest, after, lang) == word + Squeeze(rest, false, lang)
    decreases |word|
  {
    hide IsSpace;
    assert (word + rest)[1..] == word[1..] + rest;
    if |word| == 1 {
      assert word[1..] + rest == rest;
    } else {
      SqueezeWord(word[1..], rest, false, lang);
    }
  }

  /** A character that is no space closes what stands before it. */
  lemma {:induction false} SqueezeSnoc(s: string, c: char, rest: string, after: bool, lang: Language)
    requires !IsSpace(c, lang)
    ensures Squeeze(s + [c] + rest, after, lang) == Squeeze(s, after, lang) + [c] + Squeeze(rest, false, lang)
  {
    hide IsSpace;
    var t := s + [c] + rest;
    if s == "" {
      assert t[1..] == rest;
    } else {
      assert t[1..] == s[1..] + [c] + rest;
      SqueezeSnoc(s[1..], c, rest, if IsSpace(s[0], lang) then true else false, lang);
    }
  }

  function Gap(s: string, after: bool, lang: Language): string
    requires s != ""
  {
    if IsSpace(s[0], lang) && !after then [' '] else []
  }

  lemma {:induction false} SqueezeSpace(s: string, after: bool, lang: Language)
    requires s != "" && IsSpace(s[0], lang)
    ensures Squeeze(s, after, lang) == Gap(s, after, lang) + Squeeze(s[1..], true, lang)
    ensures Words(s, lang) == Words(s[1..], lang)
  {
  }

  lemma {:induction false} JoinFirst(word: string, words: seq<string>)
    requires words != []
    ensures Join([word] + words, ' ') == word + ([' '] + Join(words, ' '))
  {
  }

  /** Text that does not end in whitespace: its words joined by single spaces are the text squeezed. */
  lemma {:induction false} JoinedWordsAreSqueezed(s: string, after: bool, lang: Language)
    requires s != "" && !IsSpace(s[|s| - 1], lang)
    ensures Words(s, lang) != []
    ensures Squeeze(s, after, lang) == Gap(s, after, lang) + Join(Words(s, lang), ' ')
    decreases |s|
  {
    hide IsSpace, NoSpace, Squeeze, Join, Words, Gap;
    NoGap(s, after, lang);
    if IsSpace(s[0], lang) {
      SqueezeSpace(s, after, lang);
      JoinedWordsAreSqueezed(s[1..], true, lang);
      NoGap(s[1..], true, lang);
    } else {
      var n := WordEnd(s, lang);
      var word, rest := s[..n], s[n..];
      assert s == word + rest;
      WordFirst(s, lang);
      SqueezeWord(word, rest, after, lang);
      SqueezeNothing(lang);
      if rest != "" {
        JoinedWordsAreSqueezed(rest, false, lang);
        NoGap(rest, false, lang);
        JoinFirst(word, Words(rest, lang));
      } else {
        JoinOne(word);
        assert [word] + [] == [word] && word + "" == word;
      }
    }
  }

  lemma {:induction false} NoGap(s: string, after: bool, lang: Language)
    requires s != ""
    ensures Gap(s, after, lang) == if IsSpace(s[0], lang) && !after then [' '] else []
  {
  }

  lemma {:induction false} WordFirst(s: string, lang: Language)
    requires s != "" && !IsSpace(s[0], lang)
    ensures var n := WordEnd(s, lang); n > 0 && Words(s, lang) == [s[..n]] + Words(s[n..], lang)
  {
  }

  lemma {:induction false} JoinOne(word: string)
    ensures Join([word], ' ') == word
  {
  }

  lemma {:induction false} SqueezeNothing(lang: Language)
    ensures Squeeze("", false, lang) == "" && Words("", lang) == []
  {
  }

  lemma {:induction false} JoinAdds(a: seq<string>, b: seq<string>)
    requires a != [] && b != []
    ensures Join(a + b, ' ') == Join(a, ' ') + [' '] + Join(b, ' ')
  {
    hide Join;
    if |a| == 1 {
      assert a == [a[0]];
      JoinFirst(a[0], b);
      JoinOne(a[0]);
    } else {
      JoinAdds(a[1..], b);
      JoinFirst(a[0], a[1..]);
      JoinFirst(a[0], a[1..] + b);
      assert a == [a[0]] + a[1..] && a + b == [a[0]] + (a[1..] + b);
    }
  }
}
