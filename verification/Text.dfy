/** Splitting and joining strings at a separator. */
module Text {

  /** `s.split(sep)`: the pieces between separators, always at least one. */
  function Split(s: string, sep: char): (r: seq<string>)
    ensures r != []
  {
    if s == "" then [""]
    else
      var rest := Split(s[1..], sep);
      if s[0] == sep then [""] + rest else [[s[0]] + rest[0]] + rest[1..]
  }

  /** The pieces with the separator between each two. */
  function Join(parts: seq<string>, sep: char): string {
    if parts == [] then ""
    else if |parts| == 1 then parts[0]
    else parts[0] + [sep] + Join(parts[1..], sep)
  }

  /** No piece contains the separator. */
  lemma {:induction false} SplitIsClean(s: string, sep: char)
    ensures forall j :: 0 <= j < |Split(s, sep)| ==> sep !in Split(s, sep)[j]
  {
    if s != "" {
      SplitIsClean(s[1..], sep);
      var rest := Split(s[1..], sep);
      assert sep !in rest[0];
      forall j | 0 <= j < |Split(s, sep)| ensures sep !in Split(s, sep)[j] {
        if j > 0 { assert Split(s, sep)[j] == if s[0] == sep then rest[j - 1] else rest[j]; }
      }
    }
  }

  /** Joining the pieces gives the string back. */
  lemma {:induction false} JoinSplit(s: string, sep: char)
    ensures Join(Split(s, sep), sep) == s
  {
    if s != "" {
      JoinSplit(s[1..], sep);
      var rest := Split(s[1..], sep);
      if s[0] == sep {
        assert ([""] + rest)[1..] == rest;
      } else {
        var parts := [[s[0]] + rest[0]] + rest[1..];
        assert parts[1..] == rest[1..];
        assert s == [s[0]] + s[1..];
      }
    }
  }

  /** Splitting a join of clean pieces gives the pieces back. */
  lemma {:induction false} SplitJoin(parts: seq<string>, sep: char)
    requires parts != [] && forall j :: 0 <= j < |parts| ==> sep !in parts[j]
    ensures Split(Join(parts, sep), sep) == parts
    decreases |parts|, |parts[0]|
  {
    if parts[0] == "" {
      if |parts| > 1 {
        assert Join(parts, sep)[1..] == Join(parts[1..], sep);
        SplitJoin(parts[1..], sep);
      }
    } else {
      var head := parts[0];
      var shorter := [head[1..]] + parts[1..];
      assert shorter[1..] == parts[1..];
      assert Join(parts, sep)[1..] == Join(shorter, sep);
      assert head[0] in head && Join(parts, sep)[0] == head[0];
      forall j | 0 <= j < |shorter| ensures sep !in shorter[j] {
        if j == 0 { assert forall c :: c in head[1..] ==> c in head; } else { assert shorter[j] == parts[j]; }
      }
      SplitJoin(shorter, sep);
      assert [head[0]] + head[1..] == head;
    }
  }

  /** Clean pieces are determined by their join. */
  lemma {:induction false} JoinIsInjective(a: seq<string>, b: seq<string>, sep: char)
    requires a != [] && forall j :: 0 <= j < |a| ==> sep !in a[j]
    requires b != [] && forall j :: 0 <= j < |b| ==> sep !in b[j]
    requires Join(a, sep) == Join(b, sep)
    ensures a == b
  {
    SplitJoin(a, sep);
    SplitJoin(b, sep);
  }
}
