/** The fold is a filter: opening an ended turn inserts its steps under its header and touches nothing else. */
module TranscriptFold {
  import opened Options
  import opened Transcript
  import opened TranscriptBuilder

  /** The reader's click on a turn's header. */
  function Toggle(open: set<string>, id: string): (r: set<string>)
    ensures id in r <==> id !in open
    ensures forall other :: other != id ==> (other in r <==> other in open)
  {
    if id in open then open - {id} else open + {id}
  }

  /** The steps turn k folds away in this window; none for a live turn or one the window opens inside. */
  ghost function Hidden(c: Chat, k: nat, start: nat): seq<Item>
    requires k < |c.turns|
  {
    var lo, hi := Lo(c, k, start), Hi(c, k);
    if lo < hi && lo == c.turns[k].start && !Live(c, k)
    then Rows(c.messages, c.turns, k, Steps(c.messages, lo, hi))
    else []
  }

  /** Two views of one conversation that agree on everything but the folds. */
  ghost predicate SameButFolds(c: Chat, d: Chat) {
    d == c.(open := d.open)
  }

  /** Nothing but the steps under the header depends on the folds. */
  lemma {:induction false} PartsUnfolded(c: Chat, d: Chat, k: nat, lo: nat, hi: nat, showWork: bool)
    requires SameButFolds(c, d) && k < |c.turns|
    ensures HeaderPart(c, k, lo, hi) == HeaderPart(d, k, lo, hi)
    ensures RulePart(c, k, lo, hi) == RulePart(d, k, lo, hi)
    ensures Tail(c, k, showWork) == Tail(d, k, showWork)
    ensures ShowWork(c, k, lo, hi) == ShowWork(d, k, lo, hi)
    ensures Live(c, k) == Live(d, k)
    ensures LiveSeam(c) == LiveSeam(d)
    ensures Hidden(c, k, lo) == Hidden(d, k, lo)
    ensures Under(c, k, lo, hi).1 == Under(d, k, lo, hi).1
  {
  }

  lemma {:induction false} BlockUnfolded(c: Chat, d: Chat, m: nat, start: nat)
    requires SameButFolds(c, d) && m < |c.turns|
    requires c.turns[m].id in c.open <==> c.turns[m].id in d.open
    ensures Block(c, m, start) == Block(d, m, start)
  {
    hide HeaderPart, RulePart, Tail, ShowWork, Joined, Hidden, LiveSeam, BodyIndices, Close;
    var lo, hi := Lo(c, m, start), Hi(c, m);
    assert Lo(d, m, start) == lo && Hi(d, m) == hi;
    PartsUnfolded(c, d, m, lo, hi, ShowWork(c, m, lo, hi));
    PartsUnfolded(c, d, m, lo, hi, false);
    assert Under(c, m, lo, hi) == Under(d, m, lo, hi);
  }

  lemma {:induction false} BlocksUnfolded(c: Chat, d: Chat, k: nat, m: nat, start: nat)
    requires SameButFolds(c, d) && k <= m <= |c.turns|
    requires forall j :: k <= j < m ==> (c.turns[j].id in c.open <==> c.turns[j].id in d.open)
    ensures Blocks(c, k, m, start) == Blocks(d, k, m, start)
    decreases m
  {
    hide Block;
    if k < m {
      BlocksUnfolded(c, d, k, m - 1, start);
      BlockUnfolded(c, d, m - 1, start);
      BlocksEnd(c, k, m, start);
      BlocksEnd(d, k, m, start);
    }
  }

  lemma {:induction false} BlocksEnd(c: Chat, k: nat, m: nat, start: nat)
    requires k < m <= |c.turns|
    ensures Blocks(c, k, m, start) == Blocks(c, k, m - 1, start) + Block(c, m - 1, start)
  {
  }

  lemma {:induction false} CloseBehind(pre: seq<Item>, post: seq<Item>)
    requires post != []
    ensures Close(pre + post) == pre + Close(post)
  {
  }

  /** The opened block is the shut one with the steps put in, right under the header that counts them. */
  lemma {:induction false} BlockFold(c: Chat, d: Chat, k: nat, start: nat) returns (pre: seq<Item>, post: seq<Item>)
    requires SameButFolds(c, d) && k < |c.turns| && c.turns[k].id !in c.open && c.turns[k].id in d.open
    ensures Block(c, k, start) == pre + post
    ensures Block(d, k, start) == pre + Hidden(c, k, start) + post
    ensures var hidden := Hidden(c, k, start);
            hidden != [] ==> pre != [] && pre[|pre| - 1].turnIdx == k && pre[|pre| - 1].body == Work(|hidden|)
  {
    hide Tail, Rows, Joined, Select, LiveSeam;
    var lo, hi := Lo(c, k, start), Hi(c, k);
    assert Lo(d, k, start) == lo && Hi(d, k) == hi;
    var hidden := Hidden(c, k, start);
    if hidden == [] {
      BlockWithoutSteps(c, d, k, start);
      pre, post := Block(c, k, start), [];
    } else {
      var asks, header := Rows(c.messages, c.turns, k, Select(lo, hi, Asks(c.messages))), HeaderPart(c, k, lo, hi);
      var rule, below := RulePart(c, k, lo, hi), Rows(c.messages, c.turns, k, Under(c, k, lo, hi).1);
      var tail := Tail(c, k, ShowWork(c, k, lo, hi));
      WholeParts(c, k, lo, hi);
      WholeParts(d, k, lo, hi);
      pre, post := asks + header, rule + below + tail;
      PartsUnfolded(c, d, k, lo, hi, ShowWork(c, k, lo, hi));
      NoRows(c.messages, c.turns, k);
      StepsHaveReply(c.messages, lo, hi);
      Insertion(asks, header, hidden, rule, below, tail);
      CloseBehind(pre, post);
      CloseBehind(pre + hidden, post);
      post := Close(post);
    }
  }

  lemma {:induction false} StepsHaveReply(ms: seq<Message>, lo: nat, hi: nat)
    requires Steps(ms, lo, hi) != []
    ensures LastReply(ms, lo, hi).Some?
  {
    var i := Steps(ms, lo, hi)[0];
    SelectMembers(lo, hi, StepIn(ms, lo, hi), i);
  }

  lemma {:induction false} Insertion(a: seq<Item>, b: seq<Item>, hidden: seq<Item>, d: seq<Item>, e: seq<Item>,
                                     f: seq<Item>)
    ensures a + b + [] + d + e + f == (a + b) + (d + e + f)
    ensures a + b + hidden + d + e + f == (a + b) + hidden + (d + e + f)
  {
  }

  lemma {:induction false} BlockWithoutSteps(c: Chat, d: Chat, k: nat, start: nat)
    requires SameButFolds(c, d) && k < |c.turns| && c.turns[k].id !in c.open && c.turns[k].id in d.open
    requires Hidden(c, k, start) == []
    ensures Block(d, k, start) == Block(c, k, start)
  {
    hide HeaderPart, RulePart, Tail, ShowWork, Joined, LiveSeam, Close;
    var lo, hi := Lo(c, k, start), Hi(c, k);
    assert Lo(d, k, start) == lo && Hi(d, k) == hi;
    PartsUnfolded(c, d, k, lo, hi, ShowWork(c, k, lo, hi));
    PartsUnfolded(c, d, k, lo, hi, false);
    if lo < hi && lo == c.turns[k].start {
      assert Under(c, k, lo, hi) == Under(d, k, lo, hi);
    }
  }

  /** Blocks split at turn k. */
  lemma {:induction false} BlocksSplit(c: Chat, k: nat, m: nat, start: nat)
    requires k <= m <= |c.turns|
    ensures Blocks(c, 0, m, start) == Blocks(c, 0, k, start) + Blocks(c, k, m, start)
  {
    if k < m {
      BlocksSplit(c, k, m - 1, start);
      Regroup(Blocks(c, 0, k, start), Blocks(c, k, m - 1, start), Block(c, m - 1, start));
    }
  }

  /** The list around one turn's block. */
  lemma {:induction false} LayoutAround(c: Chat, k: nat, start: nat)
    requires k < |c.turns| && start <= |c.messages|
    ensures Layout(c, start)
            == Head(c, start) + Blocks(c, 0, k, start) + Block(c, k, start)
               + (Blocks(c, k + 1, |c.turns|, start) + LiveSeam(c) + Prompts(c.prompts))
  {
    BlocksSplit(c, k + 1, |c.turns|, start);
    SpreadOut(Head(c, start), Blocks(c, 0, k, start), Block(c, k, start), Blocks(c, k + 1, |c.turns|, start),
              LiveSeam(c), Prompts(c.prompts));
  }

  lemma {:induction false} SpreadOut(a: seq<Item>, b: seq<Item>, d: seq<Item>, e: seq<Item>, f: seq<Item>, g: seq<Item>)
    ensures a + (b + d + e) + f + g == a + b + d + (e + f + g)
  {
  }

  /** before and after are what the shut list holds on either side of turn k's hidden steps. */
  ghost predicate FoldsAt(c: Chat, k: nat, start: nat, before: seq<Item>, after: seq<Item>)
    requires k < |c.turns| && start <= |c.messages|
  {
    var id, hidden := c.turns[k].id, Hidden(c, k, start);
    Layout(c.(open := c.open - {id}), start) == before + after
    && Layout(c.(open := c.open + {id}), start) == before + hidden + after
    && (hidden != [] ==> before != [] && before[|before| - 1].turnIdx == k
                         && before[|before| - 1].body == Work(|hidden|))
  }

  /** Opening a turn inserts exactly the steps its header counts, under that header; every other item stays
      as it is: same key, same place, same gap. */
  lemma {:induction false} FoldIsAFilter(c: Chat, k: nat, start: nat)
    requires k < |c.turns| && start <= |c.messages|
    requires forall m :: 0 <= m < |c.turns| && m != k ==> c.turns[m].id != c.turns[k].id
    ensures exists before, after :: FoldsAt(c, k, start, before, after)
  {
    hide Block, Blocks, Hidden, LiveSeam, Layout, HeaderPart, RulePart, Tail, ShowWork, Live, Under;
    var id := c.turns[k].id;
    var shut, spread := c.(open := c.open - {id}), c.(open := c.open + {id});
    var pre, post := BlockFold(shut, spread, k, start);
    LayoutAround(shut, k, start);
    LayoutAround(spread, k, start);
    BlocksUnfolded(shut, spread, 0, k, start);
    BlocksUnfolded(shut, spread, k + 1, |c.turns|, start);
    var hidden := Hidden(c, k, start);
    PartsUnfolded(c, shut, k, start, start, false);
    PartsUnfolded(c, spread, k, start, start, false);
    assert Head(c, start) == Head(shut, start) == Head(spread, start);
    var head := Head(c, start) + Blocks(shut, 0, k, start);
    var rest := Blocks(shut, k + 1, |c.turns|, start) + LiveSeam(shut) + Prompts(c.prompts);
    Around(head, pre, hidden, post, rest);
    assert FoldsAt(c, k, start, head + pre, post + rest);
  }

  lemma {:induction false} Around(head: seq<Item>, pre: seq<Item>, hidden: seq<Item>, post: seq<Item>, rest: seq<Item>)
    ensures head + (pre + post) + rest == (head + pre) + (post + rest)
    ensures head + (pre + hidden + post) + rest == (head + pre) + hidden + (post + rest)
  {
  }

  /** A second click puts the list back. */
  lemma {:induction false} ToggleTwiceRestores(c: Chat, id: string, start: nat)
    requires start <= |c.messages|
    ensures Layout(c.(open := Toggle(Toggle(c.open, id), id)), start) == Layout(c, start)
  {
    assert Toggle(Toggle(c.open, id), id) == c.open;
  }
}
