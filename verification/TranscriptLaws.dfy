/** What the transcript list promises its readers: no row lost, the fold a pure filter,
    one block per turn, keys that outlive a render. */
module TranscriptLaws {
  import opened Options
  import opened Transcript
  import opened TranscriptBuilder

  // ---- the message indices a list shows ----

  /** The message indices of the row items, in list order. */
  function RowIndices(items: seq<Item>): seq<nat> {
    if items == [] then []
    else RowIndices(items[..|items| - 1])
         + (if items[|items| - 1].body.Row? then [items[|items| - 1].body.i] else [])
  }

  lemma {:induction false} RowIndicesConcat(a: seq<Item>, b: seq<Item>)
    ensures RowIndices(a + b) == RowIndices(a) + RowIndices(b)
  {
    if b == [] {
      assert a + b == a;
    } else {
      var front, last := b[..|b| - 1], b[|b| - 1];
      assert (a + b)[..|a + b| - 1] == a + front;
      RowIndicesConcat(a, front);
    }
  }

  lemma {:induction false} RowIndicesOfRows(ms: seq<Message>, turns: seq<Turn>, k: nat, idxs: seq<nat>)
    requires k < |turns| && forall j :: 0 <= j < |idxs| ==> idxs[j] < |ms|
    ensures RowIndices(Rows(ms, turns, k, idxs)) == idxs
  {
    if idxs != [] {
      var front, last := idxs[..|idxs| - 1], RowItem(ms, turns, idxs[|idxs| - 1], Some(k), k);
      RowIndicesOfRows(ms, turns, k, front);
      assert (Rows(ms, turns, k, front) + [last])[..|front|] == Rows(ms, turns, k, front);
    }
  }

  lemma {:induction false} RowIndicesOfLoose(ms: seq<Message>, lo: nat, hi: nat)
    requires lo <= hi <= |ms|
    ensures RowIndices(Loose(ms, lo, hi)) == Select(lo, hi, All(ms))
  {
    if lo < hi {
      var last := RowItem(ms, [], hi - 1, None, -1);
      RowIndicesOfLoose(ms, lo, hi - 1);
      assert (Loose(ms, lo, hi - 1) + [last])[..hi - 1 - lo] == Loose(ms, lo, hi - 1);
    }
  }

  lemma {:induction false} NoRowIndices(items: seq<Item>)
    requires forall j :: 0 <= j < |items| ==> !items[j].body.Row?
    ensures RowIndices(items) == []
  {
    if items != [] { NoRowIndices(items[..|items| - 1]); }
  }

  lemma {:induction false} NoPromptRows(prompts: seq<string>)
    ensures RowIndices(Prompts(prompts)) == []
  {
    if prompts != [] {
      NoPromptRows(prompts[..|prompts| - 1]);
      RowIndicesConcat(Prompts(prompts[..|prompts| - 1]), [Item(prompts[|prompts| - 1], -1, TURN_PAD, Interact)]);
    }
  }

  lemma {:induction false} RowIndicesOfClose(items: seq<Item>)
    requires items != []
    ensures RowIndices(Close(items)) == RowIndices(items)
  {
  }

  /** The rows turn k shows, in the order it shows them. */
  ghost function BlockIndices(c: Chat, k: nat, start: nat): seq<nat>
    requires k < |c.turns|
  {
    var lo, hi := Lo(c, k, start), Hi(c, k);
    if lo >= hi then []
    else if lo != c.turns[k].start then Select(lo, hi, All(c.messages))
    else Select(lo, hi, Asks(c.messages)) + Under(c, k, lo, hi).0 + Under(c, k, lo, hi).1
  }

  lemma {:induction false} RowIndicesAround(a: seq<Item>, header: seq<Item>, b: seq<Item>, rule: seq<Item>,
                                            c: seq<Item>, tail: seq<Item>)
    requires RowIndices(header) == [] && RowIndices(rule) == [] && RowIndices(tail) == []
    ensures RowIndices(a + header + b + rule + c + tail) == RowIndices(a) + RowIndices(b) + RowIndices(c)
  {
    RowIndicesConcat(a, header);
    RowIndicesConcat(a + header, b);
    RowIndicesConcat(a + header + b, rule);
    RowIndicesConcat(a + header + b + rule, c);
    RowIndicesConcat(a + header + b + rule + c, tail);
  }

  lemma {:induction false} NoChromeRows(c: Chat, k: nat, lo: nat, hi: nat, showWork: bool)
    requires k < |c.turns|
    ensures RowIndices(HeaderPart(c, k, lo, hi)) == [] && RowIndices(RulePart(c, k, lo, hi)) == []
    ensures RowIndices(Tail(c, k, showWork)) == []
  {
    NoRowIndices(HeaderPart(c, k, lo, hi));
    NoRowIndices(RulePart(c, k, lo, hi));
    NoRowIndices(Tail(c, k, showWork));
  }

  lemma {:induction false} RowIndicesOfWhole(c: Chat, k: nat, lo: nat, hi: nat)
    requires k < |c.turns| && hi <= |c.messages|
    ensures RowIndices(WholeItems(c, k, lo, hi))
            == Select(lo, hi, Asks(c.messages)) + Under(c, k, lo, hi).0 + Under(c, k, lo, hi).1
  {
    hide Joined, Select, Rows, HeaderPart, RulePart, Tail, ShowWork, Under, WholeItems, RowIndices;
    var body := Under(c, k, lo, hi);
    WholeParts(c, k, lo, hi);
    RowIndicesOfRows(c.messages, c.turns, k, Select(lo, hi, Asks(c.messages)));
    RowIndicesOfRows(c.messages, c.turns, k, body.0);
    RowIndicesOfRows(c.messages, c.turns, k, body.1);
    NoChromeRows(c, k, lo, hi, ShowWork(c, k, lo, hi));
    RowIndicesAround(Rows(c.messages, c.turns, k, Select(lo, hi, Asks(c.messages))), HeaderPart(c, k, lo, hi),
                     Rows(c.messages, c.turns, k, body.0), RulePart(c, k, lo, hi),
                     Rows(c.messages, c.turns, k, body.1), Tail(c, k, ShowWork(c, k, lo, hi)));
  }

  lemma {:induction false} RowIndicesOfBlock(c: Chat, k: nat, start: nat)
    requires k < |c.turns|
    ensures RowIndices(Block(c, k, start)) == BlockIndices(c, k, start)
  {
    hide Joined, Tail, HeaderPart, RulePart, Under, Select;
    var lo, hi := Lo(c, k, start), Hi(c, k);
    if lo < hi {
      if lo == c.turns[k].start {
        WholeItemsNonEmpty(c, k, lo, hi);
        RowIndicesOfClose(WholeItems(c, k, lo, hi));
        RowIndicesOfWhole(c, k, lo, hi);
      } else {
        PartItemsNonEmpty(c, k, lo, hi);
        RowIndicesOfClose(PartItems(c, k, lo, hi));
        var rows, tail := Rows(c.messages, c.turns, k, Select(lo, hi, All(c.messages))), Tail(c, k, false);
        RowIndicesOfRows(c.messages, c.turns, k, Select(lo, hi, All(c.messages)));
        NoChromeRows(c, k, lo, hi, false);
        RowIndicesConcat(rows, tail);
      }
    }
  }

  /** The rows of turns [0, m), in list order. */
  ghost function TurnIndices(c: Chat, m: nat, start: nat): seq<nat>
    requires m <= |c.turns|
  {
    if m == 0 then [] else TurnIndices(c, m - 1, start) + BlockIndices(c, m - 1, start)
  }

  lemma {:induction false} RowIndicesOfBlocks(c: Chat, m: nat, start: nat)
    requires m <= |c.turns|
    ensures RowIndices(Blocks(c, 0, m, start)) == TurnIndices(c, m, start)
  {
    hide Block, BlockIndices;
    if m > 0 {
      RowIndicesOfBlocks(c, m - 1, start);
      RowIndicesOfBlock(c, m - 1, start);
      RowIndicesConcat(Blocks(c, 0, m - 1, start), Block(c, m - 1, start));
    }
  }

  /** Where the first turn's rows start, in a window opening at `start`. */
  function FirstCovered(c: Chat, start: nat): nat {
    if c.turns == [] then Max(start, |c.messages|) else Max(start, Min(c.turns[0].start, |c.messages|))
  }

  lemma {:induction false} NoSeamRows(c: Chat)
    ensures RowIndices(LiveSeam(c)) == []
  {
    NoRowIndices(LiveSeam(c));
  }

  lemma {:induction false} RowIndicesInFront(a: seq<Item>, b: seq<Item>, seam: seq<Item>, prompts: seq<Item>)
    requires RowIndices(seam) == [] && RowIndices(prompts) == []
    ensures RowIndices(a + b + seam + prompts) == RowIndices(a) + RowIndices(b)
  {
    RowIndicesConcat(a, b);
    RowIndicesConcat(a + b, seam);
    RowIndicesConcat(a + b + seam, prompts);
  }

  lemma {:induction false} RowIndicesOfLayout(c: Chat, start: nat)
    requires start <= |c.messages|
    ensures RowIndices(Layout(c, start))
            == Select(start, FirstCovered(c, start), All(c.messages)) + TurnIndices(c, |c.turns|, start)
  {
    hide Block, Blocks, LiveSeam, Loose, Prompts;
    RowIndicesOfLoose(c.messages, start, FirstCovered(c, start));
    RowIndicesOfBlocks(c, |c.turns|, start);
    NoSeamRows(c);
    NoPromptRows(c.prompts);
    RowIndicesInFront(Head(c, start), Blocks(c, 0, |c.turns|, start), LiveSeam(c), Prompts(c.prompts));
  }

  // ---- no row is lost ----

  /** Turn k, wholly in the window and ended, hides its row i: an assistant row before its last
      reply, unless the reader opened the turn and the row has something to show. */
  ghost predicate FoldedIn(c: Chat, k: nat, start: nat, i: nat)
    requires k < |c.turns|
  {
    start <= c.turns[k].start && !Live(c, k)
    && IsAssistant(c.messages, i) && (exists j :: i < j < Hi(c, k) && IsAssistant(c.messages, j))
    && !(c.turns[k].id in c.open && c.messages[i].shows)
  }

  /** Row i is folded away by the turn that owns it. */
  ghost predicate Folded(c: Chat, start: nat, i: nat) {
    exists k: nat :: Owns(c.turns, k, i) && FoldedIn(c, k, start, i)
  }

  /** An earlier assistant row is one before the turn's last reply. */
  lemma {:induction false} EarlierIsBeforeReply(ms: seq<Message>, lo: nat, hi: nat, i: nat)
    requires lo <= i < hi && IsAssistant(ms, i)
    ensures var reply := LastReply(ms, lo, hi);
            reply.Some? && i <= reply.value
            && (i < reply.value <==> exists j :: i < j < hi && IsAssistant(ms, j))
  {
    LastReplyIsLast(ms, lo, hi, i);
    forall j | i < j < hi && IsAssistant(ms, j) ensures i < LastReply(ms, lo, hi).value {
      LastReplyIsLast(ms, lo, hi, j);
    }
  }

  /** What an ended turn shows of [lo, hi) besides its asks. */
  lemma {:induction false} CountEnded(ms: seq<Message>, lo: nat, hi: nat, open: bool, i: nat)
    ensures var body := BodyIndices(ms, lo, hi, false, open);
            multiset(body.0)[i] == (if lo <= i < hi && open && IsStep(ms, lo, hi, i) then 1 else 0)
            && multiset(body.1)[i]
               == (if lo <= i < hi && (IsSteer(ms, i) || LastReply(ms, lo, hi) == Some(i)) then 1 else 0)
  {
    var reply := LastReply(ms, lo, hi);
    var answered, trailing := Select(lo, hi, AnsweredIn(ms, lo, hi)), Select(lo, hi, TrailingIn(ms, lo, hi));
    var final := if reply.Some? then [reply.value] else [];
    SelectCount(lo, hi, StepIn(ms, lo, hi), i);
    SelectCount(lo, hi, AnsweredIn(ms, lo, hi), i);
    SelectCount(lo, hi, TrailingIn(ms, lo, hi), i);
    assert multiset(final)[i] == if reply == Some(i) then 1 else 0;
  }

  lemma {:induction false} CountWhole(c: Chat, k: nat, lo: nat, hi: nat, i: nat)
    requires k < |c.turns| && lo == c.turns[k].start < hi == Hi(c, k)
    ensures multiset(Select(lo, hi, Asks(c.messages)) + Under(c, k, lo, hi).0 + Under(c, k, lo, hi).1)[i]
            == if lo <= i < hi && !FoldedIn(c, k, lo, i) then 1 else 0
  {
    hide Select, LastReply, IsAnswered, IsTrailing;
    var ms, body := c.messages, Under(c, k, lo, hi);
    SelectCount(lo, hi, Asks(c.messages), i);
    if lo <= i < hi && IsAssistant(ms, i) { EarlierIsBeforeReply(ms, lo, hi, i); }
    if Live(c, k) {
      SelectCount(lo, hi, NonAsks(c.messages), i);
    } else {
      CountEnded(ms, lo, hi, c.turns[k].id in c.open, i);
    }
  }

  /** A turn shows each of its rows once, except the folded ones. */
  lemma {:induction false} CountBlock(c: Chat, k: nat, start: nat, i: nat)
    requires k < |c.turns|
    ensures multiset(BlockIndices(c, k, start))[i]
            == if Lo(c, k, start) <= i < Hi(c, k) && !FoldedIn(c, k, start, i) then 1 else 0
  {
    var lo, hi := Lo(c, k, start), Hi(c, k);
    if lo < hi {
      if lo == c.turns[k].start {
        CountWhole(c, k, lo, hi, i);
      } else {
        SelectCount(lo, hi, All(c.messages), i);
      }
    }
  }

  /** Within the window, the turn that owns a row is the one whose stretch holds it. */
  lemma {:induction false} OwnerCovers(c: Chat, k: nat, start: nat, i: nat)
    requires Ordered(c.turns) && k < |c.turns| && start <= i < |c.messages|
    ensures Owns(c.turns, k, i) <==> Lo(c, k, start) <= i < Hi(c, k)
  {
  }

  lemma {:induction false} OneOwner(turns: seq<Turn>, k: nat, m: nat, i: nat)
    requires Owns(turns, k, i) && Owns(turns, m, i)
    ensures k == m
  {
  }

  /** Over the first m turns, a row counts in its owner's block and nowhere else. */
  lemma {:induction false} CountOwned(c: Chat, m: nat, start: nat, i: nat, k: nat)
    requires m <= |c.turns| && Ordered(c.turns) && start <= i < |c.messages| && Owns(c.turns, k, i)
    ensures multiset(TurnIndices(c, m, start))[i] == if k < m && !FoldedIn(c, k, start, i) then 1 else 0
  {
    hide BlockIndices, FoldedIn;
    if m > 0 {
      CountOwned(c, m - 1, start, i, k);
      CountBlock(c, m - 1, start, i);
      OwnerCovers(c, m - 1, start, i);
      if Owns(c.turns, m - 1, i) { OneOwner(c.turns, k, m - 1, i); }
    }
  }

  /** The window does not hold i, or i comes before the first turn. */
  ghost predicate OutsideTurns(c: Chat, start: nat, i: nat) {
    i < start || i >= |c.messages| || c.turns == [] || i < c.turns[0].start
  }

  lemma {:induction false} NotCovered(c: Chat, k: nat, start: nat, i: nat)
    requires k < |c.turns| && Ordered(c.turns) && OutsideTurns(c, start, i)
    ensures !(Lo(c, k, start) <= i < Hi(c, k))
  {
  }

  /** A row no turn reaches is in no block. */
  lemma {:induction false} CountUnowned(c: Chat, m: nat, start: nat, i: nat)
    requires m <= |c.turns| && Ordered(c.turns) && start <= |c.messages|
    requires OutsideTurns(c, start, i)
    ensures multiset(TurnIndices(c, m, start))[i] == 0
  {
    hide BlockIndices, FoldedIn;
    if m > 0 {
      CountUnowned(c, m - 1, start, i);
      NotCovered(c, m - 1, start, i);
      CountBlock(c, m - 1, start, i);
    }
  }

  lemma {:induction false} FindOwner(turns: seq<Turn>, m: nat, i: nat) returns (k: nat)
    requires Ordered(turns) && 0 < m <= |turns| && turns[0].start <= i
    requires forall j :: m <= j < |turns| ==> i < turns[j].start
    ensures Owns(turns, k, i)
  {
    if turns[m - 1].start <= i { k := m - 1; } else { k := FindOwner(turns, m - 1, i); }
  }

  lemma {:induction false} OnlyOwnerFolds(c: Chat, start: nat, i: nat, k: nat)
    requires Owns(c.turns, k, i)
    ensures Folded(c, start, i) <==> FoldedIn(c, k, start, i)
  {
  }

  /** Every message of the window is one row of the list, or is folded; nothing else is a row. */
  lemma {:induction false} EveryRowOnce(c: Chat, start: nat, i: nat)
    requires start <= |c.messages| && Ordered(c.turns)
    ensures multiset(RowIndices(Layout(c, start)))[i]
            == if start <= i < |c.messages| && !Folded(c, start, i) then 1 else 0
  {
    hide Layout, RowIndices, Select, FirstCovered, TurnIndices, Folded, FoldedIn;
    var first := Select(start, FirstCovered(c, start), All(c.messages));
    RowIndicesOfLayout(c, start);
    BeforeTurns(c, start, i);
    SelectCount(start, FirstCovered(c, start), All(c.messages), i);
    if start <= i < |c.messages| && c.turns != [] && c.turns[0].start <= i {
      var k := FindOwner(c.turns, |c.turns|, i);
      CountOwned(c, |c.turns|, start, i, k);
      OnlyOwnerFolds(c, start, i, k);
    } else {
      CountUnowned(c, |c.turns|, start, i);
      NoOwner(c, start, i);
    }
  }

  lemma {:induction false} BeforeTurns(c: Chat, start: nat, i: nat)
    requires start <= |c.messages| && Ordered(c.turns)
    ensures start <= FirstCovered(c, start) <= |c.messages|
    ensures start <= i < FirstCovered(c, start) <==> start <= i < |c.messages| && OutsideTurns(c, start, i)
  {
  }

  lemma {:induction false} NoOwner(c: Chat, start: nat, i: nat)
    requires Ordered(c.turns) && OutsideTurns(c, start, i)
    ensures start <= i < |c.messages| ==> !Folded(c, start, i)
  {
  }

  // ---- the window, and jumping into it ----

  /** The first message the list is built from, for a render window of `visible` messages. */
  function WindowStart(total: nat, visible: nat): (start: nat)
    ensures start <= total && total - start <= visible && (start > 0 ==> total - start == visible)
  {
    if total > visible then total - visible else 0
  }

  /** How many messages the window takes when a conversation opens; it only grows from there. */
  const RENDER_WINDOW: nat := 200
  const RENDER_STEP: nat := 100

  /** How a reader's wish for earlier history widens the window. */
  function LoadEarlier(total: nat, visible: nat, added: nat): nat {
    if WindowStart(total, visible) > 0 then Min(visible + RENDER_STEP, total) else visible + added
  }

  /** A jump widens the window until it holds the target. */
  function JumpWindow(total: nat, visible: nat, target: nat): nat
    requires target <= total
  {
    if target < WindowStart(total, visible) then Max(visible, total - target) else visible
  }

  predicate IsRowOf(item: Item, i: nat) {
    item.body.Row? && item.body.i == i
  }

  ghost predicate HasRow(items: seq<Item>, i: nat) {
    exists j :: 0 <= j < |items| && IsRowOf(items[j], i)
  }

  ghost predicate AtMostOneRow(items: seq<Item>, i: nat) {
    forall j, m :: 0 <= j < m < |items| && IsRowOf(items[j], i) ==> !IsRowOf(items[m], i)
  }

  lemma {:induction false} CountItemsConcat(a: seq<Item>, b: seq<Item>, i: nat)
    ensures multiset(RowIndices(a + b))[i] == multiset(RowIndices(a))[i] + multiset(RowIndices(b))[i]
  {
    RowIndicesConcat(a, b);
  }

  lemma {:induction false} RowIndicesOfOne(item: Item)
    ensures RowIndices([item]) == if item.body.Row? then [item.body.i] else []
  {
    assert [item][..0] == [];
  }

  lemma {:induction false} RowIsCounted(items: seq<Item>, j: nat, i: nat)
    requires j < |items| && IsRowOf(items[j], i)
    ensures multiset(RowIndices(items))[i] >= 1
  {
    hide RowIndices;
    assert items == items[..j] + [items[j]] + items[j + 1..];
    CountItemsConcat(items[..j] + [items[j]], items[j + 1..], i);
    CountItemsConcat(items[..j], [items[j]], i);
    RowIndicesOfOne(items[j]);
  }

  lemma {:induction false} CountedIsRow(items: seq<Item>, i: nat)
    requires multiset(RowIndices(items))[i] >= 1
    ensures HasRow(items, i)
  {
    if items == [] {
      NoRowIndices(items);
    } else if !IsRowOf(items[|items| - 1], i) {
      hide RowIndices;
      var front, last := items[..|items| - 1], items[|items| - 1];
      assert items == front + [last];
      CountItemsConcat(front, [last], i);
      RowIndicesOfOne(last);
      CountedIsRow(front, i);
      var j :| 0 <= j < |front| && IsRowOf(front[j], i);
      assert IsRowOf(items[j], i);
    }
  }

  lemma {:induction false} CountedOnce(items: seq<Item>, i: nat)
    requires multiset(RowIndices(items))[i] <= 1
    ensures AtMostOneRow(items, i)
  {
    forall j, m | 0 <= j < m < |items| && IsRowOf(items[j], i) ensures !IsRowOf(items[m], i) {
      var a, b := items[..m], items[m..];
      assert items == a + b;
      CountItemsConcat(a, b, i);
      RowIsCounted(a, j, i);
      if IsRowOf(items[m], i) { RowIsCounted(b, 0, i); }
    }
  }

  /** The list in terms of its items: message i has exactly one row, or none when it is folded or out of the window. */
  lemma {:induction false} RowsAreTheWindow(c: Chat, start: nat, i: nat)
    requires start <= |c.messages| && Ordered(c.turns)
    ensures HasRow(Layout(c, start), i) <==> start <= i < |c.messages| && !Folded(c, start, i)
    ensures AtMostOneRow(Layout(c, start), i)
  {
    var items := Layout(c, start);
    EveryRowOnce(c, start, i);
    CountedOnce(items, i);
    if HasRow(items, i) {
      var j :| 0 <= j < |items| && IsRowOf(items[j], i);
      RowIsCounted(items, j, i);
    }
    if multiset(RowIndices(items))[i] == 1 { CountedIsRow(items, i); }
  }

  /** A jump to a message finds exactly one row item, unless its turn folds it away; to a user row, always. */
  lemma {:induction false} JumpFindsTheRow(c: Chat, visible: nat, target: nat)
    requires target < |c.messages| && Ordered(c.turns)
    ensures var start := WindowStart(|c.messages|, JumpWindow(|c.messages|, visible, target));
            var items := Layout(c, start);
            start == Min(target, WindowStart(|c.messages|, visible))
            && AtMostOneRow(items, target)
            && (HasRow(items, target) <==> !Folded(c, start, target))
            && (c.messages[target].role == User ==> HasRow(items, target))
  {
    var start := WindowStart(|c.messages|, JumpWindow(|c.messages|, visible, target));
    RowsAreTheWindow(c, start, target);
  }

  /** Widening the window keeps a row on screen exactly when it does not bring in the start of a
      turn that folds it. */
  lemma {:induction false} WideningKeepsRow(c: Chat, start: nat, wider: nat, i: nat)
    requires wider <= start <= |c.messages| && Ordered(c.turns)
    requires HasRow(Layout(c, start), i)
    ensures HasRow(Layout(c, wider), i)
            <==> !exists k: nat :: Owns(c.turns, k, i) && wider <= c.turns[k].start < start && FoldedIn(c, k, wider, i)
  {
    RowsAreTheWindow(c, start, i);
    RowsAreTheWindow(c, wider, i);
    forall k: nat | Owns(c.turns, k, i) && FoldedIn(c, k, wider, i) ensures wider <= c.turns[k].start < start {
      assert start <= c.turns[k].start ==> FoldedIn(c, k, start, i);
    }
  }

  /** It does happen: with one message more than the window takes, the step at its top is shown loose, and asking for
      earlier history folds it away under its turn's header. */
  lemma {:induction false} WideningCanFoldARow(tail: seq<Message>, visible: nat, reply: nat)
    requires visible >= RENDER_WINDOW && |tail| == visible - 1
    requires IsAssistant(tail, reply)
    ensures var ms := [Message("ask", User, false, false), Message("step", Assistant, false, true)] + tail;
            var c := Chat(ms, [Turn("t", 0, true, None, 0, None, None, None, None)], false, None, {}, []);
            var start, wider := WindowStart(|ms|, visible), WindowStart(|ms|, LoadEarlier(|ms|, visible, 0));
            HasRow(Layout(c, start), 1) && !HasRow(Layout(c, wider), 1)
  {
    hide Layout, HasRow;
    var ms := [Message("ask", User, false, false), Message("step", Assistant, false, true)] + tail;
    var c := Chat(ms, [Turn("t", 0, true, None, 0, None, None, None, None)], false, None, {}, []);
    assert WindowStart(|ms|, visible) == 1 && WindowStart(|ms|, LoadEarlier(|ms|, visible, 0)) == 0;
    RowsAreTheWindow(c, 1, 1);
    RowsAreTheWindow(c, 0, 1);
    assert Owns(c.turns, 0, 1);
    assert IsAssistant(c.messages, reply + 2);
    assert FoldedIn(c, 0, 0, 1);
  }
}
