/** The sweep that lays the transcript out: one cursor over the messages, one pass over
    the turns, items pushed onto a list whose last pad is patched when a turn ends. */
module TranscriptBuilder {
  import opened Options
  import opened Transcript
  import Sorting

  /** `Array.prototype.filter`. */
  function Filter(s: seq<nat>, p: nat -> bool): seq<nat> {
    if s == [] then []
    else Filter(s[..|s| - 1], p) + (if p(s[|s| - 1]) then [s[|s| - 1]] else [])
  }

  /** Filtering the rows of one kind picks the rows of that kind that pass. */
  lemma {:induction false} FilterSelect(lo: nat, hi: nat, p: iset<nat>, q: nat -> bool, both: iset<nat>)
    requires forall i: nat :: lo <= i < hi ==> (i in both <==> i in p && q(i))
    ensures Filter(Select(lo, hi, p), q) == Select(lo, hi, both)
  {
    if lo < hi {
      FilterSelect(lo, hi - 1, p, q, both);
      if hi - 1 in p {
        var s := Select(lo, hi, p);
        assert s[..|s| - 1] == Select(lo, hi - 1, p);
      }
    }
  }

  /** Ascending lists with the same elements are the same list. */
  lemma {:induction false} AscendingUnique(a: seq<nat>, b: seq<nat>)
    requires forall i, j :: 0 <= i < j < |a| ==> a[i] <= a[j]
    requires forall i, j :: 0 <= i < j < |b| ==> b[i] <= b[j]
    requires multiset(a) == multiset(b)
    ensures a == b
  {
    Sorting.SortedUnique(a, b, (x: nat, y: nat) => x <= y);
  }

  lemma {:induction false} SelectSplits(lo: nat, hi: nat, p: iset<nat>, q: iset<nat>, either: iset<nat>)
    requires forall i: nat :: lo <= i < hi ==> (i in either <==> i in p || i in q) && (i in p ==> i !in q)
    ensures multiset(Select(lo, hi, either)) == multiset(Select(lo, hi, p)) + multiset(Select(lo, hi, q))
  {
    forall i: nat
      ensures multiset(Select(lo, hi, either))[i] == multiset(Select(lo, hi, p))[i] + multiset(Select(lo, hi, q))[i]
    {
      SelectCount(lo, hi, p, i);
      SelectCount(lo, hi, q, i);
      SelectCount(lo, hi, either, i);
    }
  }

  /** Sorting the assistant and steer rows by index puts them back in transcript order. */
  lemma {:induction false} LiveOrder(ms: seq<Message>, lo: nat, hi: nat)
    requires hi <= |ms|
    ensures Sorting.Sort(Select(lo, hi, Assistants(ms)) + Select(lo, hi, Steers(ms)), ByIndex())
            == Select(lo, hi, NonAsks(ms))
  {
    var a, s := Select(lo, hi, Assistants(ms)), Select(lo, hi, Steers(ms));
    SelectAscends(lo, hi, NonAsks(ms));
    SelectSplits(lo, hi, Assistants(ms), Steers(ms), NonAsks(ms));
    Sorting.SortSorts(a + s, ByIndex());
    AscendingUnique(Sorting.Sort(a + s, ByIndex()), Select(lo, hi, NonAsks(ms)));
  }

  function ByIndex(): (nat, nat) -> bool { (x: nat, y: nat) => x <= y }

  lemma {:induction false} LastOfSelect(ms: seq<Message>, lo: nat, hi: nat)
    ensures var s := Select(lo, hi, Assistants(ms));
            LastReply(ms, lo, hi) == if s == [] then None else Some(s[|s| - 1])
  {
    if lo < hi { LastOfSelect(ms, lo, hi - 1); }
  }

  class Builder {
    const c: Chat
    var items: seq<Item>

    constructor (c: Chat)
      ensures this.c == c && items == []
    {
      this.c := c;
      items := [];
    }

    method EndTurn()
      modifies this
      ensures items == if old(items) == [] then [] else Close(old(items))
    {
      if items != [] {
        var last := |items| - 1;
        items := items[last := items[last].(pad := TURN_PAD)];
      }
    }

    method PushRow(i: nat, turn: Option<nat>, turnIdx: int)
      requires turn.Some? ==> turn.value < |c.turns|
      modifies this
      ensures items == old(items) + if i < |c.messages| then [RowItem(c.messages, c.turns, i, turn, turnIdx)] else []
    {
      if i >= |c.messages| { return; }
      var msg := c.messages[i];
      var turnStart := turn.Some? && c.turns[turn.value].start == i;
      items := items + [Item(msg.id, turnIdx, if turn.Some? then ROW_PAD else TURN_PAD, Row(i, turn, turnStart))];
    }

    method PushRows(k: nat, rows: seq<nat>)
      requires k < |c.turns|
      requires forall j :: 0 <= j < |rows| ==> rows[j] < |c.messages|
      modifies this
      ensures items == old(items) + Rows(c.messages, c.turns, k, rows)
    {
      for j := 0 to |rows|
        invariant items == old(items) + Rows(c.messages, c.turns, k, rows[..j])
      {
        PushRow(rows[j], Some(k), k);
        assert rows[..j + 1][..j] == rows[..j];
      }
      assert rows[..|rows|] == rows;
    }

    /** Closes a turn; a turn with nothing left to say adds nothing. */
    method PushTail(k: nat, showWork: bool)
      requires k < |c.turns|
      modifies this
      ensures items == old(items) + Tail(c, k, showWork)
    {
      var turn := c.turns[k];
      var newest := k + 1 == |c.turns|;
      var archivedEnd := ArchivedEnd(turn);
      var liveEnd := !c.busy && c.failed.Some? && newest;
      var endStatus := archivedEnd;
      if archivedEnd.None? && liveEnd { endStatus := Some(c.failed.value.status); }
      var compaction := Compacted(turn);
      var statusLine := !showWork && Worked(turn);
      if turn.docs == 0 && !statusLine && !compaction && endStatus.None? {
        return;
      }
      var endError := turn.error;
      if turn.error.None? && liveEnd { endError := c.failed.value.error; }
      var resumable := !c.busy && newest
                       && (endStatus == Some(Interrupted) || EndedOnDeadline(endStatus, turn.errorKind));
      items := items + [Item(turn.id + ":tail", k, TURN_PAD,
                             Footer(statusLine, endStatus, endError, liveEnd, resumable))];
    }

    /** A turn the window opens inside. */
    method PartTurn(k: nat, start: nat, hi: nat)
      requires k < |c.turns| && start < hi <= |c.messages|
      modifies this
      ensures items == old(items) + Close(PartItems(c, k, start, hi))
    {
      hide Tail, RowItem, Rows, Select;
      var cursor := start;
      NoRows(c.messages, c.turns, k);
      SelectNothing(start, All(c.messages));
      while cursor < hi
        invariant start <= cursor <= hi
        invariant items == old(items) + Rows(c.messages, c.turns, k, Select(start, cursor, All(c.messages)))
      {
        PushRow(cursor, Some(k), k);
        SelectNext(start, cursor, All(c.messages));
        OneRow(c.messages, c.turns, k, cursor);
        RowsConcat(c.messages, c.turns, k, Select(start, cursor, All(c.messages)), [cursor]);
        cursor := cursor + 1;
      }
      PartItemsNonEmpty(c, k, start, hi);
      PushTail(k, false);
      assert items == old(items) + PartItems(c, k, start, hi);
      EndTurn();
    }

    /** Sorts the rows of [lo, hi) by who wrote them. */
    method Classify(lo: nat, hi: nat) returns (asks: seq<nat>, steers: seq<nat>, assistants: seq<nat>)
      requires lo <= hi <= |c.messages|
      ensures asks == Select(lo, hi, Asks(c.messages))
      ensures steers == Select(lo, hi, Steers(c.messages))
      ensures assistants == Select(lo, hi, Assistants(c.messages))
    {
      asks, steers, assistants := [], [], [];
      for i := lo to hi
        invariant asks == Select(lo, i, Asks(c.messages))
        invariant steers == Select(lo, i, Steers(c.messages))
        invariant assistants == Select(lo, i, Assistants(c.messages))
      {
        var msg := c.messages[i];
        if msg.role == Assistant {
          assistants := assistants + [i];
        } else if msg.steer {
          steers := steers + [i];
        } else {
          asks := asks + [i];
        }
      }
    }

    /** The steps, and the steers before and after the reply. */
    method Divide(lo: nat, hi: nat, steers: seq<nat>, assistants: seq<nat>)
      returns (finalRow: Option<nat>, steps: seq<nat>, answered: seq<nat>, trailing: seq<nat>)
      requires lo <= hi <= |c.messages|
      requires steers == Select(lo, hi, Steers(c.messages)) && assistants == Select(lo, hi, Assistants(c.messages))
      ensures finalRow == LastReply(c.messages, lo, hi)
      ensures steps == Steps(c.messages, lo, hi)
      ensures answered == Select(lo, hi, AnsweredIn(c.messages, lo, hi))
      ensures trailing == Select(lo, hi, TrailingIn(c.messages, lo, hi))
    {
      LastOfSelect(c.messages, lo, hi);
      if assistants == [] {
        SelectSame(lo, hi, Steers(c.messages), AnsweredIn(c.messages, lo, hi));
        SelectNone(lo, hi, TrailingIn(c.messages, lo, hi));
        SelectNone(lo, hi, StepIn(c.messages, lo, hi));
        return None, [], steers, [];
      }
      var f := assistants[|assistants| - 1];
      var working := (j: nat) => j < f && j < |c.messages| && c.messages[j].shows;
      var before := (j: nat) => j < f;
      var after := (j: nat) => j > f;
      FilterSelect(lo, hi, Assistants(c.messages), working, StepIn(c.messages, lo, hi));
      FilterSelect(lo, hi, Steers(c.messages), before, AnsweredIn(c.messages, lo, hi));
      FilterSelect(lo, hi, Steers(c.messages), after, TrailingIn(c.messages, lo, hi));
      return Some(f), Filter(assistants, working), Filter(steers, before), Filter(steers, after);
    }

    /** The answered steers, the reply, and the steers that came after it. */
    method ReplyRows(k: nat, finalRow: Option<nat>, answered: seq<nat>, trailing: seq<nat>)
      requires k < |c.turns|
      requires forall j :: 0 <= j < |answered| ==> answered[j] < |c.messages|
      requires forall j :: 0 <= j < |trailing| ==> trailing[j] < |c.messages|
      requires finalRow.Some? ==> finalRow.value < |c.messages|
      modifies this
      ensures items == old(items)
                       + Rows(c.messages, c.turns, k,
                              answered + (if finalRow.Some? then [finalRow.value] else []) + trailing)
    {
      hide Rows;
      PushRows(k, answered);
      if finalRow.Some? {
        PushRow(finalRow.value, Some(k), k);
      }
      PushRows(k, trailing);
      var final := if finalRow.Some? then [finalRow.value] else [];
      if finalRow.Some? { OneRow(c.messages, c.turns, k, finalRow.value); } else { NoRows(c.messages, c.turns, k); }
      RowsConcat(c.messages, c.turns, k, answered, final);
      RowsConcat(c.messages, c.turns, k, answered + final, trailing);
    }

    /** The rows of an ended turn: its steps if the reader opened it, the rule, the steers around the reply. */
    method EndedRows(k: nat, lo: nat, hi: nat, showWork: bool, finalRow: Option<nat>,
                     steps: seq<nat>, answered: seq<nat>, trailing: seq<nat>)
      requires k < |c.turns| && lo <= hi <= |c.messages| && !Live(c, k)
      requires finalRow == LastReply(c.messages, lo, hi) && steps == Steps(c.messages, lo, hi)
      requires answered == Select(lo, hi, AnsweredIn(c.messages, lo, hi))
      requires trailing == Select(lo, hi, TrailingIn(c.messages, lo, hi))
      requires showWork == ShowWork(c, k, lo, hi)
      modifies this
      ensures items == old(items) + Rows(c.messages, c.turns, k, Under(c, k, lo, hi).0) + RulePart(c, k, lo, hi)
                       + Rows(c.messages, c.turns, k, Under(c, k, lo, hi).1)
    {
      if c.turns[k].id in c.open {
        PushRows(k, steps);
      }
      assert items == old(items) + Rows(c.messages, c.turns, k, Under(c, k, lo, hi).0);
      if finalRow.Some? && showWork {
        items := items + [Item(c.turns[k].id + ":rule", k, ROW_PAD, Rule)];
      }
      ReplyRows(k, finalRow, answered, trailing);
    }

    /** A turn wholly inside the window. */
    method WholeTurn(k: nat, lo: nat, hi: nat)
      requires k < |c.turns| && lo < hi <= |c.messages|
      modifies this
      ensures WholeItems(c, k, lo, hi) != []
      ensures items == old(items) + Close(WholeItems(c, k, lo, hi))
    {
      hide Rows, Tail, RulePart, Joined, BodyIndices, Under, Select, Steps, RowItem;
      WholeItemsNonEmpty(c, k, lo, hi);
      WholeParts(c, k, lo, hi);
      var askRows, steerRows, assistantRows := Classify(lo, hi);
      var finalRow, processRows, answeredSteers, trailingSteers := Divide(lo, hi, steerRows, assistantRows);
      var running := c.busy && k + 1 == |c.turns| && !c.turns[k].finished;
      var showWork := running || Worked(c.turns[k]) || |processRows| > 0;
      PushRows(k, askRows);
      if showWork {
        items := items + [Item(c.turns[k].id + ":work", k, ROW_PAD, Work(|processRows|))];
      }
      assert items == old(items) + Rows(c.messages, c.turns, k, askRows) + HeaderPart(c, k, lo, hi);
      ghost var headed := items;
      if running {
        LiveOrder(c.messages, lo, hi);
        LiveUnder(c, k, lo, hi);
        PushRows(k, Sorting.Sort(assistantRows + steerRows, ByIndex()));
      } else {
        EndedRows(k, lo, hi, showWork, finalRow, processRows, answeredSteers, trailingSteers);
      }
      assert items == headed + Rows(c.messages, c.turns, k, Under(c, k, lo, hi).0) + RulePart(c, k, lo, hi)
                      + Rows(c.messages, c.turns, k, Under(c, k, lo, hi).1);
      PushTail(k, showWork);
      RegroupMany(old(items), Rows(c.messages, c.turns, k, askRows), HeaderPart(c, k, lo, hi),
                  Rows(c.messages, c.turns, k, Under(c, k, lo, hi).0),
                  RulePart(c, k, lo, hi), Rows(c.messages, c.turns, k, Under(c, k, lo, hi).1), Tail(c, k, showWork));
      CloseAfter(old(items), WholeItems(c, k, lo, hi));
      EndTurn();
    }

    /** The rows [lo, hi) that come before the first turn. */
    method LooseRows(lo: nat, hi: nat)
      requires lo <= hi <= |c.messages|
      modifies this
      ensures items == old(items) + Loose(c.messages, lo, hi)
    {
      for cursor := lo to hi
        invariant items == old(items) + Loose(c.messages, lo, cursor)
      {
        PushRow(cursor, None, -1);
      }
    }

    /** Turn ti's block, from the cursor on. */
    method TurnBlock(ti: nat, ghost start: nat, cursor: nat, hi: nat)
      requires ti < |c.turns|
      requires cursor == Lo(c, ti, start) && hi == Hi(c, ti)
      modifies this
      ensures items == old(items) + Block(c, ti, start)
    {
      if cursor >= hi { return; }
      if cursor != c.turns[ti].start {
        PartTurn(ti, cursor, hi);
      } else {
        WholeTurn(ti, cursor, hi);
      }
    }

    /** One step of the sweep: the rows before turn ti, then its block; returns where the cursor stops. */
    method SweepTurn(ti: nat, ghost start: nat, from: nat) returns (cursor: nat)
      requires ti < |c.turns| && start <= |c.messages| && Ordered(c.turns)
      requires Swept(c, ti, start, from, items) && from < |c.messages|
      modifies this
      ensures cursor <= |c.messages|
      ensures Swept(c, ti + 1, start, cursor, items)
    {
      cursor := from;
      var turn := c.turns[ti];
      ghost var head := Head(c, start);
      if cursor < turn.start {
        var stop := Min(turn.start, |c.messages|);
        LooseRows(cursor, stop);
        cursor := stop;
      }
      assert ti == 0 ==> items == head;
      assert ti > 0 ==> items == old(items);
      var turnEnd := if ti + 1 < |c.turns| then c.turns[ti + 1].start else |c.messages|;
      var hi := Min(turnEnd, |c.messages|);
      TurnBlock(ti, start, cursor, hi);
      SweptStep(c, ti, start, old(items));
      if cursor < hi { cursor := hi; }
    }

    /** A live turn whose run has produced no row yet opens at the end of the transcript. */
    method SeamTurn()
      modifies this
      ensures items == old(items) + LiveSeam(c)
    {
      if c.turns == [] { return; }
      var k := |c.turns| - 1;
      if c.turns[k].start >= |c.messages| && c.busy && !c.turns[k].finished {
        items := items + [Item(c.turns[k].id + ":work", k, ROW_PAD, Work(0))];
        PushTail(k, false);
        assert items == old(items) + ([WorkItem(c, k, 0)] + Tail(c, k, false));
        CloseAfter(old(items), [WorkItem(c, k, 0)] + Tail(c, k, false));
        EndTurn();
      }
    }

    method PromptItems()
      modifies this
      ensures items == old(items) + Prompts(c.prompts)
    {
      for j := 0 to |c.prompts|
        invariant items == old(items) + Prompts(c.prompts[..j])
      {
        items := items + [Item(c.prompts[j], -1, TURN_PAD, Interact)];
        assert c.prompts[..j + 1][..j] == c.prompts[..j];
      }
      assert c.prompts[..|c.prompts|] == c.prompts;
    }

    /** The rows left over after the last turn: the whole window when there are no turns, nothing otherwise. */
    method LeftOver(from: nat)
      requires from <= |c.messages| && Ordered(c.turns)
      requires c.turns != [] ==> from == |c.messages|
      modifies this
      ensures items == old(items) + Loose(c.messages, from, |c.messages|)
    {
      var cursor := from;
      while cursor < |c.messages|
        invariant from <= cursor <= |c.messages|
        invariant items == old(items) + Loose(c.messages, from, cursor)
      {
        var turn := TurnForIndex(c.turns, cursor);
        PushRow(cursor, turn, -1);
        cursor := cursor + 1;
      }
    }

    /** One pass over the turns with one cursor over the window's messages. */
    method Build(start: nat)
      requires start <= |c.messages| && Ordered(c.turns)
      requires items == []
      modifies this
      ensures items == Layout(c, start)
    {
      hide Head, Blocks, LiveSeam, Prompts, Loose, Swept;
      var cursor: nat, ti: nat := start, 0;
      SweptStart(c, start);
      while ti < |c.turns| && cursor < |c.messages|
        invariant ti <= |c.turns| && start <= |c.messages|
        invariant cursor <= |c.messages|
        invariant Swept(c, ti, start, cursor, items)
        decreases |c.turns| - ti
      {
        cursor := SweepTurn(ti, start, cursor);
        ti := ti + 1;
      }
      SweptAll(c, ti, start, cursor, items);
      ghost var swept := items;
      LeftOver(cursor);
      SweptToEnd(c, start, cursor, swept);
      SeamTurn();
      PromptItems();
    }
  }

  /** Where the cursor stands before turn k: the sweep never leaves a gap. */
  function Cursor(c: Chat, k: nat, start: nat): nat
    requires k <= |c.turns|
  {
    if k == 0 then start else if k == |c.turns| then |c.messages| else Lo(c, k, start)
  }

  /** Where the sweep stands once it has passed the first k turns. */
  ghost predicate Swept(c: Chat, k: nat, start: nat, cursor: nat, items: seq<Item>)
    requires k <= |c.turns| && start <= |c.messages|
  {
    cursor == Cursor(c, k, start)
    && items == SweptItems(c, k, start)
  }

  ghost function SweptItems(c: Chat, k: nat, start: nat): seq<Item>
    requires k <= |c.turns| && start <= |c.messages|
  {
    if k == 0 then [] else Head(c, start) + Blocks(c, 0, k, start)
  }

  lemma {:induction false} SweptStart(c: Chat, start: nat)
    requires start <= |c.messages|
    ensures Swept(c, 0, start, start, [])
  {
  }

  lemma {:induction false} SweptStep(c: Chat, k: nat, start: nat, before: seq<Item>)
    requires k < |c.turns| && start <= |c.messages|
    requires before == SweptItems(c, k, start)
    ensures SweptItems(c, k + 1, start)
            == if k == 0 then Head(c, start) + Block(c, k, start) else before + Block(c, k, start)
  {
    if k == 0 {
      assert Blocks(c, 0, 1, start) == Block(c, 0, start);
    } else {
      Regroup(Head(c, start), Blocks(c, 0, k, start), Block(c, k, start));
    }
  }

  /** Once the cursor is at the end, the turns not reached hold nothing. */
  lemma {:induction false} NoBlocksLeft(c: Chat, k: nat, start: nat)
    requires k <= |c.turns| && start <= |c.messages| && Ordered(c.turns)
    requires k == |c.turns| || Cursor(c, k, start) >= |c.messages|
    ensures Blocks(c, 0, |c.turns|, start) == Blocks(c, 0, k, start)
    decreases |c.turns| - k
  {
    if k < |c.turns| {
      assert Block(c, k, start) == [];
      NoBlocksLeft(c, k + 1, start);
    }
  }

  /** Stopping early loses nothing. */
  lemma {:induction false} SweptAll(c: Chat, k: nat, start: nat, cursor: nat, items: seq<Item>)
    requires k <= |c.turns| && start <= |c.messages| && Ordered(c.turns)
    requires Swept(c, k, start, cursor, items)
    requires k == |c.turns| || cursor >= |c.messages|
    ensures c.turns != [] ==> cursor == |c.messages|
    ensures c.turns == [] ==> cursor == start
    ensures Swept(c, |c.turns|, start, cursor, items)
  {
    NoBlocksLeft(c, k, start);
    if k == 0 && c.turns != [] {
      assert Head(c, start) == [];
    }
  }

  lemma {:induction false} SweptToEnd(c: Chat, start: nat, cursor: nat, items: seq<Item>)
    requires start <= cursor <= |c.messages|
    requires Swept(c, |c.turns|, start, cursor, items)
    ensures items + Loose(c.messages, cursor, |c.messages|) == Head(c, start) + Blocks(c, 0, |c.turns|, start)
  {
  }

  /** The turn that owns a message: the closest one starting at or before it. */
  ghost predicate Owns(turns: seq<Turn>, k: nat, index: nat) {
    k < |turns| && turns[k].start <= index && forall m :: k < m < |turns| ==> index < turns[m].start
  }

  /** Binary search for the turn that owns a message. */
  method TurnForIndex(turns: seq<Turn>, index: nat) returns (best: Option<nat>)
    requires Ordered(turns)
    ensures best.Some? ==> Owns(turns, best.value, index)
    ensures best.None? ==> forall m :: 0 <= m < |turns| ==> index < turns[m].start
  {
    var lo, hi := 0, |turns| - 1;
    best := None;
    while lo <= hi
      invariant 0 <= lo <= hi + 1 <= |turns|
      invariant forall m :: hi < m < |turns| ==> index < turns[m].start
      invariant if lo == 0 then best == None else best == Some(lo - 1) && turns[lo - 1].start <= index
    {
      var mid := (lo + hi) / 2;
      if turns[mid].start <= index {
        best := Some(mid);
        lo := mid + 1;
      } else {
        hi := mid - 1;
      }
    }
  }

  /** A live turn renders everything but its asks in transcript order, and closes with no rule. */
  lemma {:induction false} LiveUnder(c: Chat, k: nat, lo: nat, hi: nat)
    requires k < |c.turns| && Live(c, k) && hi <= |c.messages|
    ensures Under(c, k, lo, hi).0 == Select(lo, hi, NonAsks(c.messages))
    ensures Rows(c.messages, c.turns, k, Under(c, k, lo, hi).1) == [] && RulePart(c, k, lo, hi) == []
  {
  }

  lemma {:induction false} SelectNothing(lo: nat, p: iset<nat>)
    ensures Select(lo, lo, p) == []
  {
  }

  lemma {:induction false} SelectNext(lo: nat, hi: nat, p: iset<nat>)
    requires lo <= hi && hi in p
    ensures Select(lo, hi + 1, p) == Select(lo, hi, p) + [hi]
  {
  }

  lemma {:induction false} NoRows(ms: seq<Message>, turns: seq<Turn>, k: nat)
    requires k < |turns|
    ensures Rows(ms, turns, k, []) == []
  {
  }

  lemma {:induction false} OneRow(ms: seq<Message>, turns: seq<Turn>, k: nat, i: nat)
    requires k < |turns| && i < |ms|
    ensures Rows(ms, turns, k, [i]) == [RowItem(ms, turns, i, Some(k), k)]
  {
  }

  lemma {:induction false} RowsConcat(ms: seq<Message>, turns: seq<Turn>, k: nat, a: seq<nat>, b: seq<nat>)
    requires k < |turns|
    requires forall j :: 0 <= j < |a| ==> a[j] < |ms|
    requires forall j :: 0 <= j < |b| ==> b[j] < |ms|
    ensures Rows(ms, turns, k, a + b) == Rows(ms, turns, k, a) + Rows(ms, turns, k, b)
  {
    if b == [] {
      assert a + b == a;
    } else {
      assert (a + b)[..|a + b| - 1] == a + b[..|b| - 1];
      RowsConcat(ms, turns, k, a, b[..|b| - 1]);
    }
  }

  lemma {:induction false} Regroup<T>(a: seq<T>, b: seq<T>, c: seq<T>)
    ensures a + b + c == a + (b + c)
  {
  }

  lemma {:induction false} RegroupMany<T>(before: seq<T>, a: seq<T>, b: seq<T>, c: seq<T>, d: seq<T>, e: seq<T>,
                                          f: seq<T>)
    ensures before + a + b + c + d + e + f == before + (a + b + c + d + e + f)
  {
  }

  lemma {:induction false} CloseAfter(before: seq<Item>, items: seq<Item>)
    requires items != []
    ensures Close(before + items) == before + Close(items)
  {
  }

  lemma {:induction false} SelectSame(lo: nat, hi: nat, p: iset<nat>, q: iset<nat>)
    requires forall i: nat :: lo <= i < hi ==> (i in p <==> i in q)
    ensures Select(lo, hi, p) == Select(lo, hi, q)
  {
    if lo < hi { SelectSame(lo, hi - 1, p, q); }
  }

  lemma {:induction false} SelectNone(lo: nat, hi: nat, p: iset<nat>)
    requires forall i: nat :: lo <= i < hi ==> i !in p
    ensures Select(lo, hi, p) == []
  {
    if lo < hi { SelectNone(lo, hi - 1, p); }
  }
}
