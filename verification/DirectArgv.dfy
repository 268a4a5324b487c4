/** Which command lines the tool runs without a shell. */
module DirectArgv {
  import opened Text
  import opened Whitespace

  predicate IsSafe(c: char) {
    'a' <= c <= 'z' || 'A' <= c <= 'Z' || '0' <= c <= '9' || c in "_./:+-"
  }

  predicate AllSafe(s: string) {
    forall i :: 0 <= i < |s| ==> IsSafe(s[i])
  }

  /** `direct_argv` */
  predicate DirectArgv(cmd: string) {
    var fields := Words(cmd, Python);
    fields != [] && Join(fields, ' ') == cmd && forall i :: 0 <= i < |fields| ==> AllSafe(fields[i])
  }

  /** One or more words, none of them empty, of safe characters only. */
  predicate BareWords(words: seq<string>) {
    words != [] && forall i :: 0 <= i < |words| ==> words[i] != "" && AllSafe(words[i])
  }

  lemma {:induction false} BareWordsAreWords(words: seq<string>)
    requires BareWords(words)
    ensures AreWords(words, Python)
  {
  }

  /** The command runs without a shell exactly when it is bare words joined by single spaces. */
  lemma {:induction false} DirectIsBareWords(cmd: string)
    ensures DirectArgv(cmd) <==> exists words :: BareWords(words) && Join(words, ' ') == cmd
  {
    if DirectArgv(cmd) {
      WordsAreWords(cmd, Python);
      assert BareWords(Words(cmd, Python));
    }
    forall words | BareWords(words) && Join(words, ' ') == cmd ensures DirectArgv(cmd) {
      BareWordsAreWords(words);
      WordsOfJoin(words, Python);
    }
  }

  /** Those words are determined by the command: they are its split, by whitespace or by single spaces alike. */
  lemma {:induction false} WordsAreUnique(cmd: string, words: seq<string>)
    requires BareWords(words) && Join(words, ' ') == cmd
    ensures words == Words(cmd, Python) && words == Split(cmd, ' ')
  {
    BareWordsAreWords(words);
    WordsOfJoin(words, Python);
    forall j | 0 <= j < |words| ensures ' ' !in words[j] {
      assert forall i :: 0 <= i < |words[j]| ==> IsSafe(words[j][i]);
    }
    SplitJoin(words, ' ');
  }

  lemma {:induction false} JoinCharacters(words: seq<string>, i: nat)
    requires (forall j :: 0 <= j < |words| ==> AllSafe(words[j])) && i < |Join(words, ' ')|
    ensures IsSafe(Join(words, ' ')[i]) || Join(words, ' ')[i] == ' '
    decreases |words|
  {
    hide IsSafe;
    if |words| > 1 && i > |words[0]| { JoinCharacters(words[1..], i - |words[0]| - 1); }
  }

  /** A direct command holds safe characters and spaces only. */
  lemma {:induction false} DirectCharacters(cmd: string, i: nat)
    requires DirectArgv(cmd) && i < |cmd|
    ensures IsSafe(cmd[i]) || cmd[i] == ' '
  {
    hide IsSafe, Words, Join;
    JoinCharacters(Words(cmd, Python), i);
  }
}
