/** History that arrives above the reader does not disturb what is already on screen: the items of every
    turn that began inside the window keep their keys, their gaps and their order. */
module TranscriptHistory {
  import opened Options
  import opened Transcript
  import opened TranscriptLaws
  import opened TranscriptFold

  // ---- the same turns, further down a longer transcript ----

  function Shift(s: seq<nat>, off: nat): (r: seq<nat>)
    ensures |r| == |s|
    ensures forall j :: 0 <= j < |s| ==> r[j] == s[j] + off
  {
    if s == [] then [] else Shift(s[..|s| - 1], off) + [s[|s| - 1] + off]
  }

  function ShiftTurns(turns: seq<Turn>, off: nat): (r: seq<Turn>)
    ensures |r| == |turns|
  {
    if turns == [] then []
    else ShiftTurns(turns[..|turns| - 1], off) + [turns[|turns| - 1].(start := turns[|turns| - 1].start + off)]
  }

  /** Turn k of the longer transcript. */
  lemma {:induction false} ShiftTurnsAt(olderTurns: seq<Turn>, turns: seq<Turn>, off: nat, k: nat)
    requires k < |turns|
    ensures (olderTurns + ShiftTurns(turns, off))[k + |olderTurns|] == turns[k].(start := turns[k].start + off)
    decreases |turns|
  {
    if k < |turns| - 1 { ShiftTurnsAt(olderTurns, turns[..|turns| - 1], off, k); }
  }

  /** An item after `rows` messages and `turns` turns were put above it: only its indices move. */
  function ShiftItem(item: Item, rows: nat, turns: nat): (r: Item)
    ensures r.key == item.key && r.pad == item.pad
  {
    var body := match item.body
                case Row(i, Some(k), turnStart) => Row(i + rows, Some(k + turns), turnStart)
                case Row(i, None, turnStart) => Row(i + rows, None, turnStart)
                case other => other;
    Item(item.key, if item.turnIdx >= 0 then item.turnIdx + turns else item.turnIdx, item.pad, body)
  }

  function ShiftItems(items: seq<Item>, rows: nat, turns: nat): (r: seq<Item>)
    ensures |r| == |items|
  {
    if items == [] then []
    else ShiftItems(items[..|items| - 1], rows, turns) + [ShiftItem(items[|items| - 1], rows, turns)]
  }

  /** Older messages and turns arrive in front of the loaded ones. */
  function Prepend(c: Chat, older: seq<Message>, olderTurns: seq<Turn>): Chat {
    c.(messages := older + c.messages, turns := olderTurns + ShiftTurns(c.turns, |older|))
  }

  lemma {:induction false} ShiftItemsAt(items: seq<Item>, rows: nat, turns: nat, j: nat)
    requires j < |items|
    ensures ShiftItems(items, rows, turns)[j] == ShiftItem(items[j], rows, turns)
    decreases |items|
  {
    if j < |items| - 1 { ShiftItemsAt(items[..|items| - 1], rows, turns, j); }
  }

  lemma {:induction false} ShiftItemsConcat(a: seq<Item>, b: seq<Item>, rows: nat, turns: nat)
    ensures ShiftItems(a + b, rows, turns) == ShiftItems(a, rows, turns) + ShiftItems(b, rows, turns)
    decreases |b|
  {
    if b == [] {
      assert a + b == a;
    } else {
      assert (a + b)[..|a + b| - 1] == a + b[..|b| - 1];
      ShiftItemsConcat(a, b[..|b| - 1], rows, turns);
    }
  }

  lemma {:induction false} ShiftClose(items: seq<Item>, rows: nat, turns: nat)
    requires items != []
    ensures ShiftItems(Close(items), rows, turns) == Close(ShiftItems(items, rows, turns))
  {
  }

  // ---- each piece of a turn's block moves along ----

  lemma {:induction false} LastReplyShift(older: seq<Message>, ms: seq<Message>, lo: nat, hi: nat)
    requires hi <= |ms|
    ensures LastReply(older + ms, lo + |older|, hi + |older|)
            == match LastReply(ms, lo, hi) { case None => None case Some(i) => Some(i + |older|) }
    decreases hi
  {
    if lo < hi { LastReplyShift(older, ms, lo, hi - 1); }
  }

  lemma {:induction false} SelectShift(lo: nat, hi: nat, off: nat, p: iset<nat>, q: iset<nat>)
    requires forall i: nat :: lo <= i < hi ==> (i in p <==> i + off in q)
    ensures Select(lo + off, hi + off, q) == Shift(Select(lo, hi, p), off)
    decreases hi
  {
    hide Shift;
    if hi <= lo { ShiftNothing(off); }
    if lo < hi {
      SelectShift(lo, hi - 1, off, p, q);
      assert hi - 1 in p <==> hi - 1 + off in q;
      if hi - 1 in p { ShiftAppend(Select(lo, hi - 1, p), hi - 1, off); }
    }
  }

  lemma {:induction false} ShiftNothing(off: nat)
    ensures Shift([], off) == []
  {
  }

  lemma {:induction false} ShiftAppend(s: seq<nat>, x: nat, off: nat)
    ensures Shift(s + [x], off) == Shift(s, off) + [x + off]
  {
  }

  /** A message keeps its role in its turn. */
  lemma {:induction false} KindShift(older: seq<Message>, ms: seq<Message>, lo: nat, hi: nat, i: nat)
    requires i < |ms| && hi <= |ms|
    ensures var off := |older|; var all := older + ms;
            (IsAsk(all, i + off) <==> IsAsk(ms, i))
            && (IsStep(all, lo + off, hi + off, i + off) <==> IsStep(ms, lo, hi, i))
            && (IsAnswered(all, lo + off, hi + off, i + off) <==> IsAnswered(ms, lo, hi, i))
            && (IsTrailing(all, lo + off, hi + off, i + off) <==> IsTrailing(ms, lo, hi, i))
  {
    LastReplyShift(older, ms, lo, hi);
    assert (older + ms)[i + |older|] == ms[i];
  }

  lemma {:induction false} AsksShift(older: seq<Message>, ms: seq<Message>, lo: nat, hi: nat)
    requires hi <= |ms|
    ensures var off := |older|; var all := older + ms;
            Select(lo + off, hi + off, Asks(all)) == Shift(Select(lo, hi, Asks(ms)), off)
            && Select(lo + off, hi + off, NonAsks(all)) == Shift(Select(lo, hi, NonAsks(ms)), off)
  {
    hide Select, Shift, IsAsk;
    var off, all := |older|, older + ms;
    forall i: nat | lo <= i < hi ensures IsAsk(all, i + off) <==> IsAsk(ms, i) { KindShift(older, ms, lo, hi, i); }
    SelectShift(lo, hi, off, Asks(ms), Asks(all));
    SelectShift(lo, hi, off, NonAsks(ms), NonAsks(all));
  }

  lemma {:induction false} StepsShift(older: seq<Message>, ms: seq<Message>, lo: nat, hi: nat)
    requires hi <= |ms|
    ensures Steps(older + ms, lo + |older|, hi + |older|) == Shift(Steps(ms, lo, hi), |older|)
  {
    hide Select, Shift, IsStep, LastReply;
    var off, all := |older|, older + ms;
    forall i: nat | lo <= i < hi ensures IsStep(all, lo + off, hi + off, i + off) <==> IsStep(ms, lo, hi, i) {
      KindShift(older, ms, lo, hi, i);
    }
    SelectShift(lo, hi, off, StepIn(ms, lo, hi), StepIn(all, lo + off, hi + off));
  }

  lemma {:induction false} SteersShift(older: seq<Message>, ms: seq<Message>, lo: nat, hi: nat)
    requires hi <= |ms|
    ensures var off := |older|; var all := older + ms;
            Select(lo + off, hi + off, AnsweredIn(all, lo + off, hi + off))
            == Shift(Select(lo, hi, AnsweredIn(ms, lo, hi)), off)
            && Select(lo + off, hi + off, TrailingIn(all, lo + off, hi + off))
               == Shift(Select(lo, hi, TrailingIn(ms, lo, hi)), off)
  {
    hide Select, Shift, IsAnswered, IsTrailing;
    var off, all := |older|, older + ms;
    forall i: nat | lo <= i < hi
      ensures IsAnswered(all, lo + off, hi + off, i + off) <==> IsAnswered(ms, lo, hi, i)
      ensures IsTrailing(all, lo + off, hi + off, i + off) <==> IsTrailing(ms, lo, hi, i)
    {
      KindShift(older, ms, lo, hi, i);
    }
    SelectShift(lo, hi, off, AnsweredIn(ms, lo, hi), AnsweredIn(all, lo + off, hi + off));
    SelectShift(lo, hi, off, TrailingIn(ms, lo, hi), TrailingIn(all, lo + off, hi + off));
  }

  lemma {:induction false} ShiftConcat(a: seq<nat>, b: seq<nat>, off: nat)
    ensures Shift(a + b, off) == Shift(a, off) + Shift(b, off)
    decreases |b|
  {
  }

  lemma {:induction false} ShiftThree(a: seq<nat>, b: seq<nat>, c: seq<nat>, off: nat)
    ensures Shift(a + b + c, off) == Shift(a, off) + Shift(b, off) + Shift(c, off)
  {
    ShiftConcat(a, b, off);
    ShiftConcat(a + b, c, off);
  }

  lemma {:induction false} ReplyShift(reply: Option<nat>, moved: Option<nat>, off: nat)
    requires moved == match reply { case None => None case Some(i) => Some(i + off) }
    ensures (if moved.Some? then [moved.value] else []) == Shift(if reply.Some? then [reply.value] else [], off)
  {
  }

  /** Below the rule: answered steers, the reply, late steers. */
  lemma {:induction false} BelowShift(older: seq<Message>, ms: seq<Message>, lo: nat, hi: nat, answered: seq<nat>,
                                      final: seq<nat>, trailing: seq<nat>)
    requires hi <= |ms|
    requires answered == Select(lo, hi, AnsweredIn(ms, lo, hi)) && trailing == Select(lo, hi, TrailingIn(ms, lo, hi))
    requires final == if LastReply(ms, lo, hi).Some? then [LastReply(ms, lo, hi).value] else []
    ensures BodyIndices(older + ms, lo + |older|, hi + |older|, false, false).1
            == Shift(answered + final + trailing, |older|)
  {
    hide Select, LastReply, Shift, AnsweredIn, TrailingIn;
    var off, all := |older|, older + ms;
    SteersShift(older, ms, lo, hi);
    LastReplyShift(older, ms, lo, hi);
    ReplyShift(LastReply(ms, lo, hi), LastReply(all, lo + off, hi + off), off);
    ShiftThree(answered, final, trailing, off);
  }

  lemma {:induction false} BodyShift(older: seq<Message>, ms: seq<Message>, lo: nat, hi: nat, live: bool, open: bool)
    requires hi <= |ms|
    ensures BodyIndices(older + ms, lo + |older|, hi + |older|, live, open)
            == (Shift(BodyIndices(ms, lo, hi, live, open).0, |older|),
                Shift(BodyIndices(ms, lo, hi, live, open).1, |older|))
  {
    hide Select, Steps, LastReply, Shift, AnsweredIn, TrailingIn, NonAsks;
    ShiftNothing(|older|);
    if live {
      AsksShift(older, ms, lo, hi);
    } else {
      StepsShift(older, ms, lo, hi);
      var reply := LastReply(ms, lo, hi);
      BelowShift(older, ms, lo, hi, Select(lo, hi, AnsweredIn(ms, lo, hi)),
                 if reply.Some? then [reply.value] else [], Select(lo, hi, TrailingIn(ms, lo, hi)));
    }
  }

  lemma {:induction false} RowShift(older: seq<Message>, ms: seq<Message>, turns: seq<Turn>, olderTurns: seq<Turn>,
                                    k: nat, i: nat)
    requires k < |turns| && i < |ms|
    ensures RowItem(older + ms, olderTurns + ShiftTurns(turns, |older|), i + |older|, Some(k + |olderTurns|),
                    k + |olderTurns|)
            == ShiftItem(RowItem(ms, turns, i, Some(k), k), |older|, |olderTurns|)
  {
    hide ShiftTurns;
    assert (older + ms)[i + |older|] == ms[i];
    ShiftTurnsAt(olderTurns, turns, |older|, k);
  }

  lemma {:induction false} RowsShift(older: seq<Message>, ms: seq<Message>, turns: seq<Turn>, olderTurns: seq<Turn>,
                                     k: nat, idxs: seq<nat>)
    requires k < |turns| && forall j :: 0 <= j < |idxs| ==> idxs[j] < |ms|
    ensures Rows(older + ms, olderTurns + ShiftTurns(turns, |older|), k + |olderTurns|, Shift(idxs, |older|))
            == ShiftItems(Rows(ms, turns, k, idxs), |older|, |olderTurns|)
    decreases |idxs|
  {
    hide RowItem, ShiftItem, ShiftTurns;
    if idxs != [] {
      var front, last := idxs[..|idxs| - 1], idxs[|idxs| - 1];
      RowsShift(older, ms, turns, olderTurns, k, front);
      RowShift(older, ms, turns, olderTurns, k, last);
      assert Shift(idxs, |older|)[..|idxs| - 1] == Shift(front, |older|);
      ShiftItemsAppend(Rows(ms, turns, k, front), RowItem(ms, turns, last, Some(k), k), |older|, |olderTurns|);
    }
  }

  lemma {:induction false} ShiftItemsAppend(items: seq<Item>, item: Item, rows: nat, turns: nat)
    ensures ShiftItems(items + [item], rows, turns) == ShiftItems(items, rows, turns) + [ShiftItem(item, rows, turns)]
  {
  }

  /** The facts of turn k, read off the longer transcript. */
  lemma {:induction false} TurnShift(c: Chat, older: seq<Message>, olderTurns: seq<Turn>, k: nat)
    requires k < |c.turns|
    ensures var d := Prepend(c, older, olderTurns); var n := |olderTurns|;
            k + n < |d.turns| && d.turns[k + n] == c.turns[k].(start := c.turns[k].start + |older|)
            && Live(d, k + n) == Live(c, k) && IsLast(d, k + n) == IsLast(c, k)
            && Hi(d, k + n) == Hi(c, k) + |older|
  {
    hide ShiftTurns;
    ShiftTurnsAt(olderTurns, c.turns, |older|, k);
    if k + 1 < |c.turns| { ShiftTurnsAt(olderTurns, c.turns, |older|, k + 1); }
  }

  lemma {:induction false} HeaderShift(c: Chat, older: seq<Message>, olderTurns: seq<Turn>, k: nat, lo: nat, hi: nat)
    requires k < |c.turns| && hi <= |c.messages|
    ensures var d := Prepend(c, older, olderTurns); var off := |older|; var n := |olderTurns|;
            ShowWork(d, k + n, lo + off, hi + off) == ShowWork(c, k, lo, hi)
            && HeaderPart(d, k + n, lo + off, hi + off) == ShiftItems(HeaderPart(c, k, lo, hi), off, n)
            && RulePart(d, k + n, lo + off, hi + off) == ShiftItems(RulePart(c, k, lo, hi), off, n)
  {
    hide Select, Steps, Live, LastReply, ShiftTurns;
    TurnShift(c, older, olderTurns, k);
    StepsShift(older, c.messages, lo, hi);
    LastReplyShift(older, c.messages, lo, hi);
    OneShifted(WorkItem(c, k, |Steps(c.messages, lo, hi)|), |older|, |olderTurns|);
    OneShifted(RuleItem(c, k), |older|, |olderTurns|);
  }

  lemma {:induction false} TailShift(c: Chat, older: seq<Message>, olderTurns: seq<Turn>, k: nat, showWork: bool)
    requires k < |c.turns|
    ensures Tail(Prepend(c, older, olderTurns), k + |olderTurns|, showWork)
            == ShiftItems(Tail(c, k, showWork), |older|, |olderTurns|)
  {
    hide ShiftTurns, IsLast;
    TurnShift(c, older, olderTurns, k);
    if Tail(c, k, showWork) != [] {
      OneShifted(Tail(c, k, showWork)[0], |older|, |olderTurns|);
      assert Tail(c, k, showWork) == [Tail(c, k, showWork)[0]];
    }
  }

  lemma {:induction false} OneShifted(item: Item, rows: nat, turns: nat)
    ensures ShiftItems([item], rows, turns) == [ShiftItem(item, rows, turns)]
  {
  }

  // ---- blocks, and the list from a turn on ----

  lemma {:induction false} ShiftSix(a: seq<Item>, b: seq<Item>, c: seq<Item>, d: seq<Item>, e: seq<Item>, f: seq<Item>,
                                    rows: nat, turns: nat)
    ensures ShiftItems(a + b + c + d + e + f, rows, turns)
            == ShiftItems(a, rows, turns) + ShiftItems(b, rows, turns) + ShiftItems(c, rows, turns)
               + ShiftItems(d, rows, turns) + ShiftItems(e, rows, turns) + ShiftItems(f, rows, turns)
  {
    ShiftItemsConcat(a, b, rows, turns);
    ShiftItemsConcat(a + b, c, rows, turns);
    ShiftItemsConcat(a + b + c, d, rows, turns);
    ShiftItemsConcat(a + b + c + d, e, rows, turns);
    ShiftItemsConcat(a + b + c + d + e, f, rows, turns);
  }

  lemma {:induction false} WholeShift(c: Chat, older: seq<Message>, olderTurns: seq<Turn>, k: nat, lo: nat, hi: nat)
    requires k < |c.turns| && hi <= |c.messages|
    ensures Prepend(c, older, olderTurns).messages == older + c.messages
    ensures WholeItems(Prepend(c, older, olderTurns), k + |olderTurns|, lo + |older|, hi + |older|)
            == ShiftItems(WholeItems(c, k, lo, hi), |older|, |olderTurns|)
  {
    hide Joined, Select, HeaderPart, RulePart, Tail, ShowWork, Rows, BodyIndices, ShiftItems, Shift, ShiftTurns, Live;
    var d, off, n := Prepend(c, older, olderTurns), |older|, |olderTurns|;
    TurnShift(c, older, olderTurns, k);
    HeaderShift(c, older, olderTurns, k, lo, hi);
    TailShift(c, older, olderTurns, k, ShowWork(c, k, lo, hi));
    BodyShift(older, c.messages, lo, hi, Live(c, k), c.turns[k].id in c.open);
    AsksShift(older, c.messages, lo, hi);
    var body := Under(c, k, lo, hi);
    RowsShift(older, c.messages, c.turns, olderTurns, k, Select(lo, hi, Asks(c.messages)));
    RowsShift(older, c.messages, c.turns, olderTurns, k, body.0);
    RowsShift(older, c.messages, c.turns, olderTurns, k, body.1);
    WholeParts(c, k, lo, hi);
    WholeParts(d, k + n, lo + off, hi + off);
    ShiftSix(Rows(c.messages, c.turns, k, Select(lo, hi, Asks(c.messages))), HeaderPart(c, k, lo, hi),
             Rows(c.messages, c.turns, k, body.0), RulePart(c, k, lo, hi),
             Rows(c.messages, c.turns, k, body.1), Tail(c, k, ShowWork(c, k, lo, hi)), off, n);
  }

  /** The block of a turn that began in the window is the same block, further down. */
  lemma {:induction false} BlockShift(c: Chat, older: seq<Message>, olderTurns: seq<Turn>, k: nat, start: nat,
                                      start': nat)
    requires k < |c.turns|
    requires start <= |c.messages| && start <= c.turns[k].start
    requires start' <= |older| + |c.messages| && start' <= |older| + c.turns[k].start
    ensures k + |olderTurns| < |Prepend(c, older, olderTurns).turns|
    ensures Block(Prepend(c, older, olderTurns), k + |olderTurns|, start')
            == ShiftItems(Block(c, k, start), |older|, |olderTurns|)
  {
    hide WholeItems, PartItems, Close, Live;
    var d, off, n := Prepend(c, older, olderTurns), |older|, |olderTurns|;
    var lo, hi := Lo(c, k, start), Hi(c, k);
    TurnShift(c, older, olderTurns, k);
    assert Lo(d, k + n, start') == lo + off && Hi(d, k + n) == hi + off;
    if lo < hi {
      WholeShift(c, older, olderTurns, k, lo, hi);
      WholeItemsNonEmpty(c, k, lo, hi);
      ShiftClose(WholeItems(c, k, lo, hi), off, n);
    }
  }

  /** The list from turn k on, when every turn from k on began in the window. */
  ghost function From(c: Chat, k: nat, start: nat): seq<Item>
    requires k <= |c.turns|
  {
    Blocks(c, k, |c.turns|, start) + LiveSeam(c) + Prompts(c.prompts)
  }

  lemma {:induction false} BlocksShift(c: Chat, older: seq<Message>, olderTurns: seq<Turn>, k: nat, m: nat, start: nat,
                                       start': nat)
    requires k <= m <= |c.turns|
    requires start <= |c.messages| && start' <= |older| + |c.messages|
    requires forall j :: k <= j < m ==> start <= c.turns[j].start && start' <= |older| + c.turns[j].start
    ensures m + |olderTurns| <= |Prepend(c, older, olderTurns).turns|
    ensures Blocks(Prepend(c, older, olderTurns), k + |olderTurns|, m + |olderTurns|, start')
            == ShiftItems(Blocks(c, k, m, start), |older|, |olderTurns|)
    decreases m
  {
    hide Block;
    if k < m {
      BlocksShift(c, older, olderTurns, k, m - 1, start, start');
      BlockShift(c, older, olderTurns, m - 1, start, start');
      ShiftItemsConcat(Blocks(c, k, m - 1, start), Block(c, m - 1, start), |older|, |olderTurns|);
    }
  }

  lemma {:induction false} SeamShift(c: Chat, older: seq<Message>, olderTurns: seq<Turn>)
    requires c.turns != []
    ensures LiveSeam(Prepend(c, older, olderTurns)) == ShiftItems(LiveSeam(c), |older|, |olderTurns|)
  {
  }

  lemma {:induction false} PromptsShift(prompts: seq<string>, rows: nat, turns: nat)
    ensures ShiftItems(Prompts(prompts), rows, turns) == Prompts(prompts)
  {
    if prompts != [] {
      PromptsShift(prompts[..|prompts| - 1], rows, turns);
      ShiftItemsAppend(Prompts(prompts[..|prompts| - 1]), Item(prompts[|prompts| - 1], -1, TURN_PAD, Interact),
                       rows, turns);
    }
  }

  lemma {:induction false} LayoutFrom(c: Chat, k: nat, start: nat)
    requires k <= |c.turns| && start <= |c.messages|
    ensures Layout(c, start) == Head(c, start) + Blocks(c, 0, k, start) + From(c, k, start)
  {
    hide Head, Blocks, LiveSeam, Prompts;
    BlocksSplit(c, k, |c.turns|, start);
    EndsWith(Head(c, start), Blocks(c, 0, k, start), Blocks(c, k, |c.turns|, start), LiveSeam(c), Prompts(c.prompts));
  }

  lemma {:induction false} EndsWith(a: seq<Item>, b: seq<Item>, d: seq<Item>, e: seq<Item>, f: seq<Item>)
    ensures a + (b + d) + e + f == a + b + (d + e + f)
  {
  }

  ghost predicate IsSuffix(tail: seq<Item>, items: seq<Item>) {
    exists front: seq<Item> :: items == front + tail
  }

  /** Widening the window, or putting older messages and turns in front of the loaded ones: from the first turn
      that began in the window on, the new list ends in the same items, their indices moved and nothing else. */
  lemma {:induction false} HistoryKeepsWhatWasMeasured(c: Chat, k: nat, start: nat,
                                                       older: seq<Message>, olderTurns: seq<Turn>, start': nat)
    requires Ordered(c.turns) && k < |c.turns|
    requires start <= |c.messages| && start <= c.turns[k].start
    requires start' <= |older| + start
    ensures IsSuffix(From(c, k, start), Layout(c, start))
    ensures var moved := ShiftItems(From(c, k, start), |older|, |olderTurns|);
            IsSuffix(moved, Layout(Prepend(c, older, olderTurns), start'))
            && forall j :: 0 <= j < |moved| ==>
                 moved[j].key == From(c, k, start)[j].key && moved[j].pad == From(c, k, start)[j].pad
  {
    hide Head, Blocks, LiveSeam, Prompts, Layout;
    var d, n := Prepend(c, older, olderTurns), |olderTurns|;
    forall j | k <= j < |c.turns| ensures start <= c.turns[j].start {
      assert k < j ==> c.turns[k].start <= c.turns[j].start;
    }
    LayoutFrom(c, k, start);
    BlocksShift(c, older, olderTurns, k, |c.turns|, start, start');
    SeamShift(c, older, olderTurns);
    PromptsShift(c.prompts, |older|, n);
    ShiftItemsConcat(Blocks(c, k, |c.turns|, start), LiveSeam(c), |older|, n);
    ShiftItemsConcat(Blocks(c, k, |c.turns|, start) + LiveSeam(c), Prompts(c.prompts), |older|, n);
    forall j | 0 <= j < |From(c, k, start)|
      ensures ShiftItems(From(c, k, start), |older|, n)[j] == ShiftItem(From(c, k, start)[j], |older|, n)
    {
      ShiftItemsAt(From(c, k, start), |older|, n, j);
    }
    LayoutFrom(d, k + n, start');
    assert From(d, k + n, start') == ShiftItems(From(c, k, start), |older|, n);
  }

  /** Asking for earlier history, which widens the window by a step or loads a page of older messages and shows all of
      it, leaves the list from turn k on as it was measured. */
  lemma {:induction false} LoadEarlierKeepsWhatWasMeasured(c: Chat, k: nat, visible: nat,
                                                           older: seq<Message>, olderTurns: seq<Turn>)
    requires Ordered(c.turns) && k < |c.turns| && WindowStart(|c.messages|, visible) <= c.turns[k].start
    requires WindowStart(|c.messages|, visible) > 0 ==> older == [] && olderTurns == []
    ensures var start := WindowStart(|c.messages|, visible);
            var wider := WindowStart(|older| + |c.messages|, LoadEarlier(|c.messages|, visible, |older|));
            var moved := ShiftItems(From(c, k, start), |older|, |olderTurns|);
            wider == (if start > RENDER_STEP then start - RENDER_STEP else 0)
            && IsSuffix(From(c, k, start), Layout(c, start))
            && IsSuffix(moved, Layout(Prepend(c, older, olderTurns), wider))
            && forall j :: 0 <= j < |moved| ==>
                 moved[j].key == From(c, k, start)[j].key && moved[j].pad == From(c, k, start)[j].pad
  {
    hide From, Layout, ShiftItems, Prepend, IsSuffix;
    var start := WindowStart(|c.messages|, visible);
    var wider := WindowStart(|older| + |c.messages|, LoadEarlier(|c.messages|, visible, |older|));
    HistoryKeepsWhatWasMeasured(c, k, start, older, olderTurns, wider);
  }
}
