/** When the rows of the list stand in transcript order. */
module TranscriptOrder {
  import opened Sequences
  import opened Options
  import opened Transcript
  import opened TranscriptBuilder
  import opened TranscriptLaws

  ghost predicate AllBefore(a: seq<nat>, b: seq<nat>) {
    forall x, y :: x in a && y in b ==> x < y
  }

  lemma {:induction false} AscendingConcat(a: seq<nat>, b: seq<nat>)
    ensures Ascending(a + b) <==> Ascending(a) && Ascending(b) && AllBefore(a, b)
  {
    var s := a + b;
    if Ascending(s) {
      forall j, m | 0 <= j < m < |a| ensures a[j] < a[m] { assert s[j] == a[j] && s[m] == a[m]; }
      forall j, m | 0 <= j < m < |b| ensures b[j] < b[m] { assert s[|a| + j] == b[j] && s[|a| + m] == b[m]; }
      forall x, y | x in a && y in b ensures x < y {
        var j :| 0 <= j < |a| && a[j] == x;
        var m :| 0 <= m < |b| && b[m] == y;
        assert s[j] == x && s[|a| + m] == y;
      }
    } else if Ascending(a) && Ascending(b) && AllBefore(a, b) {
      forall j, m | 0 <= j < m < |s| ensures s[j] < s[m] {
        if j < |a| <= m { assert s[j] in a && s[m] in b; }
      }
    }
  }

  /** The asks come before everything else turn k shows. */
  ghost predicate AsksLead(c: Chat, k: nat, lo: nat, hi: nat)
    requires k < |c.turns|
  {
    forall a, x :: (lo <= a < hi && lo <= x < hi && IsAsk(c.messages, a)
                    && !IsAsk(c.messages, x) && !FoldedIn(c, k, lo, x)) ==> a < x
  }

  /** No step of [lo, hi) comes after a steer that was answered. */
  ghost predicate StepsLead(ms: seq<Message>, lo: nat, hi: nat) {
    forall s, x :: lo <= s < hi && lo <= x < hi && IsAnswered(ms, lo, hi, s) && IsStep(ms, lo, hi, x) ==> x < s
  }

  ghost predicate TurnInOrder(c: Chat, k: nat, lo: nat, hi: nat)
    requires k < |c.turns|
  {
    AsksLead(c, k, lo, hi)
    && (!Live(c, k) && c.turns[k].id in c.open ==> StepsLead(c.messages, lo, hi))
  }

  lemma {:induction false} MembersOf(c: Chat, k: nat, lo: nat, hi: nat, i: nat)
    requires k < |c.turns| && lo == c.turns[k].start < hi == Hi(c, k)
    ensures i in Select(lo, hi, Asks(c.messages)) <==> lo <= i < hi && IsAsk(c.messages, i)
    ensures i in Under(c, k, lo, hi).0 + Under(c, k, lo, hi).1
            <==> lo <= i < hi && !IsAsk(c.messages, i) && !FoldedIn(c, k, lo, i)
  {
    var ms := c.messages;
    SelectMembers(lo, hi, Asks(c.messages), i);
    SelectMembers(lo, hi, NonAsks(c.messages), i);
    SelectMembers(lo, hi, StepIn(c.messages, lo, hi), i);
    SelectMembers(lo, hi, AnsweredIn(c.messages, lo, hi), i);
    SelectMembers(lo, hi, TrailingIn(c.messages, lo, hi), i);
    if lo <= i < hi && IsAssistant(ms, i) { EarlierIsBeforeReply(ms, lo, hi, i); }
  }

  /** Below the rule: answered steers, then the reply, then the late steers: always in order. */
  lemma {:induction false} BelowAscends(ms: seq<Message>, lo: nat, hi: nat)
    ensures Ascending(BodyIndices(ms, lo, hi, false, false).1)
  {
    var reply := LastReply(ms, lo, hi);
    var answered, trailing := Select(lo, hi, AnsweredIn(ms, lo, hi)), Select(lo, hi, TrailingIn(ms, lo, hi));
    var final := if reply.Some? then [reply.value] else [];
    SelectAscends(lo, hi, AnsweredIn(ms, lo, hi));
    SelectAscends(lo, hi, TrailingIn(ms, lo, hi));
    forall i: nat
      ensures i in answered ==> IsAnswered(ms, lo, hi, i)
      ensures i in trailing ==> IsTrailing(ms, lo, hi, i)
    {
      SelectMembers(lo, hi, AnsweredIn(ms, lo, hi), i);
      SelectMembers(lo, hi, TrailingIn(ms, lo, hi), i);
    }
    AscendingConcat(answered, final);
    AscendingConcat(answered + final, trailing);
  }

  /** The steps stand in order over what is below the rule exactly when no answered steer comes before one of them. */
  lemma {:induction false} OpenAscends(ms: seq<Message>, lo: nat, hi: nat)
    ensures var body := BodyIndices(ms, lo, hi, false, true);
            Ascending(body.0 + body.1) <==> StepsLead(ms, lo, hi)
  {
    var body := BodyIndices(ms, lo, hi, false, true);
    BelowAscends(ms, lo, hi);
    SelectAscends(lo, hi, StepIn(ms, lo, hi));
    AscendingConcat(body.0, body.1);
    forall i: nat
      ensures i in body.0 <==> lo <= i < hi && IsStep(ms, lo, hi, i)
      ensures i in body.1
              <==> lo <= i < hi
                   && (IsAnswered(ms, lo, hi, i) || IsTrailing(ms, lo, hi, i) || LastReply(ms, lo, hi) == Some(i))
    {
      SelectMembers(lo, hi, StepIn(ms, lo, hi), i);
      SelectMembers(lo, hi, AnsweredIn(ms, lo, hi), i);
      SelectMembers(lo, hi, TrailingIn(ms, lo, hi), i);
    }
  }

  lemma {:induction false} UnderInOrder(c: Chat, k: nat, lo: nat, hi: nat)
    requires k < |c.turns|
    ensures Ascending(Under(c, k, lo, hi).0 + Under(c, k, lo, hi).1)
            <==> (!Live(c, k) && c.turns[k].id in c.open ==> StepsLead(c.messages, lo, hi))
  {
    var ms, body := c.messages, Under(c, k, lo, hi);
    if Live(c, k) {
      SelectAscends(lo, hi, NonAsks(c.messages));
      assert body.0 + body.1 == Select(lo, hi, NonAsks(c.messages));
    } else if c.turns[k].id in c.open {
      OpenAscends(ms, lo, hi);
    } else {
      BelowAscends(ms, lo, hi);
      assert body.0 + body.1 == BodyIndices(ms, lo, hi, false, false).1;
    }
  }

  lemma {:induction false} AsksInOrder(c: Chat, k: nat, lo: nat, hi: nat)
    requires k < |c.turns| && lo == c.turns[k].start < hi == Hi(c, k)
    ensures AllBefore(Select(lo, hi, Asks(c.messages)), Under(c, k, lo, hi).0 + Under(c, k, lo, hi).1)
            <==> AsksLead(c, k, lo, hi)
  {
    var asks, rest := Select(lo, hi, Asks(c.messages)), Under(c, k, lo, hi).0 + Under(c, k, lo, hi).1;
    forall i: nat
      ensures i in asks <==> lo <= i < hi && IsAsk(c.messages, i)
      ensures i in rest <==> lo <= i < hi && !IsAsk(c.messages, i) && !FoldedIn(c, k, lo, i)
    {
      MembersOf(c, k, lo, hi, i);
    }
    if AsksLead(c, k, lo, hi) {
      forall a, x | a in asks && x in rest ensures a < x {
        assert IsAsk(c.messages, a) && !IsAsk(c.messages, x);
      }
    }
    if AllBefore(asks, rest) {
      forall a, x | lo <= a < hi && lo <= x < hi && IsAsk(c.messages, a)
                    && !IsAsk(c.messages, x) && !FoldedIn(c, k, lo, x) ensures a < x {
        assert a in asks && x in rest;
      }
    }
  }

  lemma {:induction false} WholeInOrder(c: Chat, k: nat, lo: nat, hi: nat)
    requires k < |c.turns| && lo == c.turns[k].start < hi == Hi(c, k)
    ensures Ascending(Select(lo, hi, Asks(c.messages)) + Under(c, k, lo, hi).0 + Under(c, k, lo, hi).1)
            <==> TurnInOrder(c, k, lo, hi)
  {
    var asks, body := Select(lo, hi, Asks(c.messages)), Under(c, k, lo, hi);
    Regroup(asks, body.0, body.1);
    AscendingConcat(asks, body.0 + body.1);
    SelectAscends(lo, hi, Asks(c.messages));
    UnderInOrder(c, k, lo, hi);
    AsksInOrder(c, k, lo, hi);
  }

  /** Turn k, if the window holds it whole, keeps transcript order. */
  ghost predicate BlockInOrder(c: Chat, k: nat, start: nat)
    requires k < |c.turns|
  {
    start <= c.turns[k].start < Hi(c, k) ==> TurnInOrder(c, k, c.turns[k].start, Hi(c, k))
  }

  lemma {:induction false} BlockOrder(c: Chat, k: nat, start: nat)
    requires k < |c.turns| && start <= |c.messages|
    ensures Ascending(BlockIndices(c, k, start)) <==> BlockInOrder(c, k, start)
  {
    var lo, hi := Lo(c, k, start), Hi(c, k);
    if lo < hi {
      if lo == c.turns[k].start {
        WholeInOrder(c, k, lo, hi);
      } else {
        SelectAscends(lo, hi, All(c.messages));
      }
    }
  }

  ghost predicate Within(s: seq<nat>, lo: nat, hi: nat) {
    forall j :: 0 <= j < |s| ==> lo <= s[j] < hi
  }

  lemma {:induction false} BlockWithin(c: Chat, k: nat, start: nat)
    requires k < |c.turns|
    ensures Within(BlockIndices(c, k, start), Lo(c, k, start), Hi(c, k))
  {
  }

  lemma {:induction false} NextLo(c: Chat, k: nat, start: nat)
    requires k < |c.turns| && Ordered(c.turns) && start <= |c.messages|
    ensures FirstCovered(c, start) <= Lo(c, k, start)
    ensures Lo(c, k, start) <= Cursor(c, k + 1, start) && Hi(c, k) <= Cursor(c, k + 1, start)
  {
  }

  lemma {:induction false} WithinBoth(a: seq<nat>, b: seq<nat>, first: nat, start: nat, lo: nat, hi: nat, end: nat)
    requires Within(a, first, start) && Within(b, lo, hi)
    requires first <= lo && (a == [] || start <= end) && hi <= end
    ensures Within(a + b, first, end)
  {
  }

  lemma {:induction false} TurnsWithin(c: Chat, m: nat, start: nat)
    requires m <= |c.turns| && start <= |c.messages| && Ordered(c.turns)
    ensures Within(TurnIndices(c, m, start), FirstCovered(c, start), Cursor(c, m, start))
  {
    hide BlockIndices;
    if m > 0 {
      TurnsWithin(c, m - 1, start);
      BlockWithin(c, m - 1, start);
      NextLo(c, m - 1, start);
      WithinBoth(TurnIndices(c, m - 1, start), BlockIndices(c, m - 1, start), FirstCovered(c, start),
                 Cursor(c, m - 1, start), Lo(c, m - 1, start), Hi(c, m - 1), Cursor(c, m, start));
    }
  }

  lemma {:induction false} BeforeByRange(a: seq<nat>, b: seq<nat>, lo: nat, mid: nat, hi: nat)
    requires Within(a, lo, mid) && Within(b, mid, hi)
    ensures AllBefore(a, b)
  {
  }

  /** The first m turns are each in order. */
  ghost predicate BlocksInOrder(c: Chat, m: nat, start: nat)
    requires m <= |c.turns|
  {
    m == 0 || (BlocksInOrder(c, m - 1, start) && BlockInOrder(c, m - 1, start))
  }

  lemma {:induction false} EachBlockInOrder(c: Chat, m: nat, start: nat)
    requires m <= |c.turns|
    ensures BlocksInOrder(c, m, start) <==> forall k :: 0 <= k < m ==> BlockInOrder(c, k, start)
  {
    if m > 0 { EachBlockInOrder(c, m - 1, start); }
  }

  lemma {:induction false} BlockAfter(c: Chat, m: nat, start: nat)
    requires m < |c.turns| && start <= |c.messages| && Ordered(c.turns)
    ensures AllBefore(TurnIndices(c, m, start), BlockIndices(c, m, start))
  {
    if m > 0 {
      TurnsWithin(c, m, start);
      BlockWithin(c, m, start);
      BeforeByRange(TurnIndices(c, m, start), BlockIndices(c, m, start),
                    FirstCovered(c, start), Lo(c, m, start), Hi(c, m));
    }
  }

  lemma {:induction false} TurnsOrderStep(c: Chat, m: nat, start: nat)
    requires m < |c.turns| && start <= |c.messages| && Ordered(c.turns)
    ensures Ascending(TurnIndices(c, m + 1, start))
            <==> Ascending(TurnIndices(c, m, start)) && BlockInOrder(c, m, start)
  {
    hide BlockIndices, BlockInOrder;
    var before, block := TurnIndices(c, m, start), BlockIndices(c, m, start);
    assert TurnIndices(c, m + 1, start) == before + block;
    BlockOrder(c, m, start);
    BlockAfter(c, m, start);
    AscendingConcat(before, block);
  }

  lemma {:induction false} TurnsOrder(c: Chat, m: nat, start: nat)
    requires m <= |c.turns| && start <= |c.messages| && Ordered(c.turns)
    ensures Ascending(TurnIndices(c, m, start)) <==> BlocksInOrder(c, m, start)
  {
    hide BlockIndices, BlockInOrder;
    if m > 0 {
      TurnsOrder(c, m - 1, start);
      TurnsOrderStep(c, m - 1, start);
    }
  }

  /** Row indices strictly increase down the list exactly when every turn the window holds whole is in order:
      its asks lead, and no opened step comes after a steer it is shown above. */
  lemma {:induction false} RowsInTranscriptOrder(c: Chat, start: nat)
    requires start <= |c.messages| && Ordered(c.turns)
    ensures Ascending(RowIndices(Layout(c, start)))
            <==> forall k :: 0 <= k < |c.turns| ==> BlockInOrder(c, k, start)
  {
    hide Layout, RowIndices, BlockInOrder, Cursor;
    RowIndicesOfLayout(c, start);
    var head := Select(start, FirstCovered(c, start), All(c.messages));
    SelectAscends(start, FirstCovered(c, start), All(c.messages));
    TurnsOrder(c, |c.turns|, start);
    EachBlockInOrder(c, |c.turns|, start);
    TurnsWithin(c, |c.turns|, start);
    BeforeByRange(head, TurnIndices(c, |c.turns|, start), start, FirstCovered(c, start), Cursor(c, |c.turns|, start));
    AscendingConcat(head, TurnIndices(c, |c.turns|, start));
  }

  /** An opened turn that was steered before a step shows the step above the steer. */
  lemma {:induction false} SteeredStepsStandFirst()
    ensures var ms := [Message("ask", User, false, false), Message("steer", User, true, false),
                       Message("step", Assistant, false, true), Message("reply", Assistant, false, true)];
            var c := Chat(ms, [Turn("t", 0, true, None, 0, None, None, None, None)], false, None, {"t"}, []);
            !Ascending(RowIndices(Layout(c, 0)))
  {
    hide Layout, RowIndices, Ascending;
    var ms := [Message("ask", User, false, false), Message("steer", User, true, false),
               Message("step", Assistant, false, true), Message("reply", Assistant, false, true)];
    var c := Chat(ms, [Turn("t", 0, true, None, 0, None, None, None, None)], false, None, {"t"}, []);
    RowsInTranscriptOrder(c, 0);
    assert LastReply(ms, 0, 4) == Some(3);
    assert IsAnswered(ms, 0, 4, 1) && IsStep(ms, 0, 4, 2);
    assert !BlockInOrder(c, 0, 0);
  }

  /** With the asks leading and no ended turn open, the list reads top to bottom. */
  lemma {:induction false} FoldedListsReadInOrder(c: Chat, start: nat)
    requires start <= |c.messages| && Ordered(c.turns)
    requires forall k: nat, a: nat, x: nat ::
               (Owns(c.turns, k, a) && Owns(c.turns, k, x) && IsAsk(c.messages, a)
                && x < |c.messages| && !IsAsk(c.messages, x)) ==> a < x
    requires forall k :: 0 <= k < |c.turns| ==> c.turns[k].id !in c.open || Live(c, k)
    ensures Ascending(RowIndices(Layout(c, start)))
  {
    hide Layout, RowIndices, FoldedIn, Live;
    RowsInTranscriptOrder(c, start);
    forall k | 0 <= k < |c.turns| && start <= c.turns[k].start < Hi(c, k)
      ensures TurnInOrder(c, k, c.turns[k].start, Hi(c, k))
    {
      var lo, hi := c.turns[k].start, Hi(c, k);
      forall a: nat, x: nat | lo <= a < hi && lo <= x < hi && IsAsk(c.messages, a) && !IsAsk(c.messages, x)
        ensures a < x
      {
        OwnerCovers(c, k, start, a);
        OwnerCovers(c, k, start, x);
      }
    }
  }
}
