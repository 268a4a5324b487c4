/** The shape of the transcript list: whose row is whose, one block per turn, the gaps
    between blocks, keys that name one item each, and when rows keep transcript order. */
module TranscriptShape {
  import opened Sequences
  import opened Options
  import opened Transcript
  import opened TranscriptBuilder
  import opened TranscriptLaws

  // ---- every item is what it says it is ----

  /** A row names its message and the turn that owns it; a turn's chrome is keyed by the turn. */
  ghost predicate ItemOk(c: Chat, item: Item) {
    match item.body
    case Row(i, turn, turnStart) =>
      i < |c.messages| && item.key == c.messages[i].id
      && (turn.Some? ==> Owns(c.turns, turn.value, i) && item.turnIdx == turn.value
                         && (turnStart <==> c.turns[turn.value].start == i))
      && (turn.None? ==> item.turnIdx == -1 && !turnStart && forall k :: 0 <= k < |c.turns| ==> i < c.turns[k].start)
    case Work(_) => 0 <= item.turnIdx < |c.turns| && item.key == c.turns[item.turnIdx].id + ":work"
    case Rule => 0 <= item.turnIdx < |c.turns| && item.key == c.turns[item.turnIdx].id + ":rule"
    case Footer(_, _, _, _, _) => 0 <= item.turnIdx < |c.turns| && item.key == c.turns[item.turnIdx].id + ":tail"
    case Interact => item.turnIdx == -1 && item.key in c.prompts
  }

  ghost predicate ItemsOk(c: Chat, items: seq<Item>) {
    forall a :: 0 <= a < |items| ==> ItemOk(c, items[a])
  }

  /** The front of a list in range is in range, and so is its last. */
  lemma {:induction false} FrontInRange(idxs: seq<nat>, lo: nat, hi: nat)
    requires idxs != [] && forall j :: 0 <= j < |idxs| ==> lo <= idxs[j] < hi
    ensures var front := idxs[..|idxs| - 1]; forall j :: 0 <= j < |front| ==> lo <= front[j] < hi
    ensures lo <= idxs[|idxs| - 1] < hi
  {
  }

  lemma {:induction false} RowOk(c: Chat, k: nat, i: nat)
    requires k < |c.turns| && Owns(c.turns, k, i) && i < |c.messages|
    ensures ItemOk(c, RowItem(c.messages, c.turns, i, Some(k), k))
  {
  }

  lemma {:induction false} RowsOk(c: Chat, k: nat, start: nat, idxs: seq<nat>)
    requires k < |c.turns| && Ordered(c.turns) && start <= |c.messages|
    requires Hi(c, k) <= |c.messages| && forall j :: 0 <= j < |idxs| ==> Lo(c, k, start) <= idxs[j] < Hi(c, k)
    ensures ItemsOk(c, Rows(c.messages, c.turns, k, idxs))
  {
    if idxs != [] {
      var m := |idxs| - 1;
      FrontInRange(idxs, Lo(c, k, start), Hi(c, k));
      RowsOk(c, k, start, idxs[..m]);
      OwnerCovers(c, k, start, idxs[m]);
      RowOk(c, k, idxs[m]);
    }
  }

  lemma {:induction false} SixOk(c: Chat, a: seq<Item>, b: seq<Item>, d: seq<Item>, e: seq<Item>, f: seq<Item>,
                                 g: seq<Item>)
    requires ItemsOk(c, a) && ItemsOk(c, b) && ItemsOk(c, d) && ItemsOk(c, e) && ItemsOk(c, f) && ItemsOk(c, g)
    ensures ItemsOk(c, a + b + d + e + f + g)
  {
  }

  lemma {:induction false} BothOk(c: Chat, a: seq<Item>, b: seq<Item>)
    requires ItemsOk(c, a) && ItemsOk(c, b)
    ensures ItemsOk(c, a + b)
  {
  }

  lemma {:induction false} CloseOk(c: Chat, items: seq<Item>)
    requires items != [] && ItemsOk(c, items)
    ensures ItemsOk(c, Close(items))
  {
  }

  lemma {:induction false} ChromeOk(c: Chat, k: nat, lo: nat, hi: nat, showWork: bool)
    requires k < |c.turns|
    ensures ItemsOk(c, HeaderPart(c, k, lo, hi)) && ItemsOk(c, RulePart(c, k, lo, hi))
    ensures ItemsOk(c, Tail(c, k, showWork))
  {
  }

  lemma {:induction false} BlockOk(c: Chat, k: nat, start: nat)
    requires k < |c.turns| && Ordered(c.turns) && start <= |c.messages|
    ensures ItemsOk(c, Block(c, k, start))
  {
    hide HeaderPart, RulePart, Tail, ItemOk, ShowWork, Joined;
    var lo, hi := Lo(c, k, start), Hi(c, k);
    if lo < hi {
      ChromeOk(c, k, lo, hi, ShowWork(c, k, lo, hi));
      ChromeOk(c, k, lo, hi, false);
      if lo == c.turns[k].start {
        var body := Under(c, k, lo, hi);
        RowsOk(c, k, start, Select(lo, hi, Asks(c.messages)));
        RowsOk(c, k, start, body.0);
        RowsOk(c, k, start, body.1);
        SixOk(c, Rows(c.messages, c.turns, k, Select(lo, hi, Asks(c.messages))), HeaderPart(c, k, lo, hi),
              Rows(c.messages, c.turns, k, body.0), RulePart(c, k, lo, hi),
              Rows(c.messages, c.turns, k, body.1), Tail(c, k, ShowWork(c, k, lo, hi)));
        WholeItemsNonEmpty(c, k, lo, hi);
        WholeParts(c, k, lo, hi);
        CloseOk(c, WholeItems(c, k, lo, hi));
      } else {
        RowsOk(c, k, start, Select(lo, hi, All(c.messages)));
        PartItemsNonEmpty(c, k, lo, hi);
        BothOk(c, Rows(c.messages, c.turns, k, Select(lo, hi, All(c.messages))), Tail(c, k, false));
        CloseOk(c, PartItems(c, k, lo, hi));
      }
    }
  }

  lemma {:induction false} BlocksOk(c: Chat, m: nat, start: nat)
    requires m <= |c.turns| && Ordered(c.turns) && start <= |c.messages|
    ensures ItemsOk(c, Blocks(c, 0, m, start))
  {
    hide Block;
    if m > 0 {
      BlocksOk(c, m - 1, start);
      BlockOk(c, m - 1, start);
    }
  }

  lemma {:induction false} LooseOk(c: Chat, lo: nat, hi: nat)
    requires lo <= hi <= |c.messages| && Ordered(c.turns)
    requires c.turns == [] || hi <= c.turns[0].start || lo == hi
    ensures ItemsOk(c, Loose(c.messages, lo, hi))
  {
    if lo < hi {
      LooseOk(c, lo, hi - 1);
      NoOwnerBefore(c, hi - 1);
    }
  }

  lemma {:induction false} PromptsOk(c: Chat, prompts: seq<string>)
    requires forall p :: p in prompts ==> p in c.prompts
    ensures ItemsOk(c, Prompts(prompts))
  {
    if prompts != [] { PromptsOk(c, prompts[..|prompts| - 1]); }
  }

  lemma {:induction false} SeamOk(c: Chat)
    ensures ItemsOk(c, LiveSeam(c))
  {
  }

  /** Every row belongs to the turn the binary search would name, and every key is its item's own. */
  lemma {:induction false} LayoutOk(c: Chat, start: nat)
    requires start <= |c.messages| && Ordered(c.turns)
    ensures ItemsOk(c, Layout(c, start))
  {
    BlocksOk(c, |c.turns|, start);
    LooseOk(c, start, FirstCovered(c, start));
    PromptsOk(c, c.prompts);
    SeamOk(c);
    SixOk(c, Head(c, start), Blocks(c, 0, |c.turns|, start), LiveSeam(c), Prompts(c.prompts), [], []);
    assert Layout(c, start)
           == Head(c, start) + Blocks(c, 0, |c.turns|, start) + LiveSeam(c) + Prompts(c.prompts) + [] + [];
  }

  lemma {:induction false} NoOwnerBefore(c: Chat, i: nat)
    requires Ordered(c.turns) && (c.turns == [] || i < c.turns[0].start)
    ensures forall k :: 0 <= k < |c.turns| ==> i < c.turns[k].start
  {
  }

  // ---- one block per turn, and the gaps between blocks ----

  /** Where a turn's chrome stands in its block: header, then rule, then tail. */
  function Rank(item: Item): nat {
    match item.body
    case Work(_) => 0
    case Rule => 1
    case _ => 2
  }

  predicate Chrome(item: Item) { item.body.Work? || item.body.Rule? || item.body.Footer? }

  ghost predicate RanksAscend(items: seq<Item>) {
    forall a, b :: 0 <= a < b < |items| && Chrome(items[a]) && Chrome(items[b]) && items[a].turnIdx == items[b].turnIdx
                   ==> Rank(items[a]) < Rank(items[b])
  }

  /** Items inside turn k's block, none of them its last, with chrome ranks in [lo, hi). */
  ghost predicate Inner(items: seq<Item>, k: nat, lo: nat, hi: nat) {
    (forall a :: 0 <= a < |items| ==> items[a].turnIdx == k && items[a].pad == ROW_PAD
                                      && (Chrome(items[a]) ==> lo <= Rank(items[a]) < hi))
    && RanksAscend(items)
  }

  lemma {:induction false} InnerConcat(a: seq<Item>, b: seq<Item>, k: nat, lo: nat, mid: nat, hi: nat)
    requires Inner(a, k, lo, mid) && Inner(b, k, mid, hi) && lo <= mid <= hi
    ensures Inner(a + b, k, lo, hi)
  {
  }

  /** The wide gap is under an item exactly when it belongs to no turn or ends its turn's block. */
  ghost predicate Gaps(items: seq<Item>) {
    forall a :: 0 <= a < |items| ==> items[a].pad == if EndsBlock(items, a) then TURN_PAD else ROW_PAD
  }

  ghost predicate EndsBlock(items: seq<Item>, a: nat)
    requires a < |items|
  {
    items[a].turnIdx == -1 || a + 1 == |items| || items[a].turnIdx != items[a + 1].turnIdx
  }

  ghost predicate TurnsAscend(items: seq<Item>) {
    forall a, b :: 0 <= a < b < |items| ==> items[a].turnIdx <= items[b].turnIdx
  }

  /** Items of turns [lo, hi): grouped by turn, the wide gap after each turn's last item and nowhere else. */
  ghost predicate Grouped(items: seq<Item>, lo: nat, hi: nat) {
    (forall a :: 0 <= a < |items| ==> lo <= items[a].turnIdx < hi)
    && TurnsAscend(items) && Gaps(items) && RanksAscend(items)
  }

  lemma {:induction false} CloseGroups(inner: seq<Item>, tail: seq<Item>, k: nat)
    requires Inner(inner, k, 0, 2) && |tail| <= 1 && inner + tail != []
    requires tail != [] ==> tail[0].turnIdx == k && tail[0].body.Footer?
    ensures Grouped(Close(inner + tail), k, k + 1)
  {
    var items := inner + tail;
    assert Close(items)[..|items| - 1] == items[..|items| - 1];
  }

  lemma {:induction false} GapsConcat(a: seq<Item>, b: seq<Item>)
    requires Gaps(a) && Gaps(b)
    requires a != [] && b != [] ==> a[|a| - 1].turnIdx != b[0].turnIdx
    ensures Gaps(a + b)
  {
  }

  lemma {:induction false} RanksConcat(a: seq<Item>, b: seq<Item>)
    requires RanksAscend(a) && RanksAscend(b)
    requires forall i, j :: 0 <= i < |a| && 0 <= j < |b| ==> a[i].turnIdx != b[j].turnIdx
    ensures RanksAscend(a + b)
  {
  }

  lemma {:induction false} TurnsConcat(a: seq<Item>, b: seq<Item>)
    requires TurnsAscend(a) && TurnsAscend(b)
    requires forall i, j :: 0 <= i < |a| && 0 <= j < |b| ==> a[i].turnIdx < b[j].turnIdx
    ensures TurnsAscend(a + b)
  {
  }

  lemma {:induction false} GroupedConcat(a: seq<Item>, b: seq<Item>, lo: nat, mid: nat, hi: nat)
    requires Grouped(a, lo, mid) && Grouped(b, mid, hi) && lo <= mid <= hi
    ensures Grouped(a + b, lo, hi)
  {
    hide Gaps, RanksAscend, TurnsAscend;
    GapsConcat(a, b);
    RanksConcat(a, b);
    TurnsConcat(a, b);
  }

  /** A turn's rows, with at most its header, rule and tail among them, form one group. */
  lemma {:induction false} PartsGroup(asks: seq<Item>, header: seq<Item>, above: seq<Item>, rule: seq<Item>,
                                      below: seq<Item>, tail: seq<Item>, k: nat)
    requires Inner(asks, k, 0, 0) && Inner(header, k, 0, 1) && Inner(above, k, 1, 1)
    requires Inner(rule, k, 1, 2) && Inner(below, k, 2, 2)
    requires |tail| <= 1 && (tail != [] ==> tail[0].turnIdx == k && tail[0].body.Footer?)
    requires asks + header + above + rule + below + tail != []
    ensures Grouped(Close(asks + header + above + rule + below + tail), k, k + 1)
  {
    InnerConcat(asks, header, k, 0, 0, 1);
    InnerConcat(asks + header, above, k, 0, 1, 1);
    InnerConcat(asks + header + above, rule, k, 0, 1, 2);
    InnerConcat(asks + header + above + rule, below, k, 0, 2, 2);
    CloseGroups(asks + header + above + rule + below, tail, k);
  }

  lemma {:induction false} RowsInner(ms: seq<Message>, turns: seq<Turn>, k: nat, idxs: seq<nat>, rank: nat)
    requires k < |turns| && forall j :: 0 <= j < |idxs| ==> idxs[j] < |ms|
    ensures Inner(Rows(ms, turns, k, idxs), k, rank, rank)
  {
    if idxs != [] { RowsInner(ms, turns, k, idxs[..|idxs| - 1], rank); }
  }

  lemma {:induction false} ChromeInner(c: Chat, k: nat, lo: nat, hi: nat, showWork: bool)
    requires k < |c.turns|
    ensures Inner(HeaderPart(c, k, lo, hi), k, 0, 1) && Inner(RulePart(c, k, lo, hi), k, 1, 2)
    ensures var tail := Tail(c, k, showWork); tail != [] ==> tail[0].turnIdx == k && tail[0].body.Footer?
  {
  }

  lemma {:induction false} InnerWidens(items: seq<Item>, k: nat)
    requires Inner(items, k, 0, 0)
    ensures Inner(items, k, 0, 2)
  {
  }

  lemma {:induction false} BlockGroups(c: Chat, k: nat, start: nat)
    requires k < |c.turns|
    ensures Grouped(Block(c, k, start), k, k + 1)
  {
    hide Joined, Rows, Tail, HeaderPart, RulePart, Select, ShowWork, Inner;
    var lo, hi := Lo(c, k, start), Hi(c, k);
    if lo < hi {
      ChromeInner(c, k, lo, hi, ShowWork(c, k, lo, hi));
      ChromeInner(c, k, lo, hi, false);
      if lo == c.turns[k].start {
        var body := Under(c, k, lo, hi);
        RowsInner(c.messages, c.turns, k, Select(lo, hi, Asks(c.messages)), 0);
        RowsInner(c.messages, c.turns, k, body.0, 1);
        RowsInner(c.messages, c.turns, k, body.1, 2);
        WholeItemsNonEmpty(c, k, lo, hi);
        WholeParts(c, k, lo, hi);
        PartsGroup(Rows(c.messages, c.turns, k, Select(lo, hi, Asks(c.messages))), HeaderPart(c, k, lo, hi),
                   Rows(c.messages, c.turns, k, body.0), RulePart(c, k, lo, hi),
                   Rows(c.messages, c.turns, k, body.1), Tail(c, k, ShowWork(c, k, lo, hi)), k);
      } else {
        PartItemsNonEmpty(c, k, lo, hi);
        RowsInner(c.messages, c.turns, k, Select(lo, hi, All(c.messages)), 0);
        InnerWidens(Rows(c.messages, c.turns, k, Select(lo, hi, All(c.messages))), k);
        CloseGroups(Rows(c.messages, c.turns, k, Select(lo, hi, All(c.messages))), Tail(c, k, false), k);
      }
    }
  }

  lemma {:induction false} BlocksGroup(c: Chat, m: nat, start: nat)
    requires m <= |c.turns|
    ensures Grouped(Blocks(c, 0, m, start), 0, m)
  {
    hide Block;
    if m > 0 {
      BlocksGroup(c, m - 1, start);
      BlockGroups(c, m - 1, start);
      GroupedConcat(Blocks(c, 0, m - 1, start), Block(c, m - 1, start), 0, m - 1, m);
    }
  }

  /** The items that belong to turns: every block, and the seam of a live turn with no row yet. */
  ghost function TurnItems(c: Chat, start: nat): seq<Item> {
    Blocks(c, 0, |c.turns|, start) + LiveSeam(c)
  }

  lemma {:induction false} TurnItemsGroup(c: Chat, start: nat)
    ensures Grouped(TurnItems(c, start), 0, |c.turns|)
  {
    BlocksGroup(c, |c.turns|, start);
    if LiveSeam(c) != [] {
      var k := |c.turns| - 1;
      assert Block(c, k, start) == [];
      assert Blocks(c, 0, |c.turns|, start) == Blocks(c, 0, k, start);
      BlocksGroup(c, k, start);
      CloseGroups([WorkItem(c, k, 0)], Tail(c, k, false), k);
      GroupedConcat(Blocks(c, 0, k, start), LiveSeam(c), 0, k, k + 1);
    } else {
      assert TurnItems(c, start) == Blocks(c, 0, |c.turns|, start);
    }
  }

  lemma {:induction false} LayoutParts(c: Chat, start: nat)
    requires start <= |c.messages|
    ensures Layout(c, start) == Head(c, start) + TurnItems(c, start) + Prompts(c.prompts)
  {
  }

  /** What a list of loose rows, grouped turn items and prompts looks like as a whole. */
  ghost predicate Shaped(items: seq<Item>) {
    Gaps(items) && TurnsInOrder(items) && TurnsTogether(items) && RanksAscend(items)
  }

  // Turns come in order, with nothing between two items of turns that is not a turn's item.

  ghost predicate TurnsInOrder(items: seq<Item>) {
    forall a, b :: 0 <= a < b < |items| && items[a].turnIdx >= 0 && items[b].turnIdx >= 0
                   ==> items[a].turnIdx <= items[b].turnIdx
  }

  ghost predicate TurnsTogether(items: seq<Item>) {
    forall a, b, d :: 0 <= a < b < d < |items| && items[a].turnIdx >= 0 && items[d].turnIdx >= 0
                      ==> items[b].turnIdx >= 0
  }

  ghost predicate Apart(items: seq<Item>) {
    forall a :: 0 <= a < |items| ==> items[a].turnIdx == -1 && items[a].pad == TURN_PAD && !Chrome(items[a])
  }

  lemma {:induction false} GapsAround(head: seq<Item>, items: seq<Item>, prompts: seq<Item>)
    requires Apart(head) && Gaps(items) && Apart(prompts)
    ensures Gaps(head + items + prompts)
  {
  }

  lemma {:induction false} OrderAround(head: seq<Item>, items: seq<Item>, prompts: seq<Item>)
    requires Apart(head) && TurnsInOrder(items) && Apart(prompts)
    ensures TurnsInOrder(head + items + prompts)
  {
  }

  lemma {:induction false} TogetherAround(head: seq<Item>, items: seq<Item>, prompts: seq<Item>)
    requires Apart(head) && Apart(prompts)
    requires forall a :: 0 <= a < |items| ==> items[a].turnIdx >= 0
    ensures TurnsTogether(head + items + prompts)
  {
  }

  lemma {:induction false} RanksAround(head: seq<Item>, items: seq<Item>, prompts: seq<Item>)
    requires Apart(head) && RanksAscend(items) && Apart(prompts)
    ensures RanksAscend(head + items + prompts)
  {
  }

  lemma {:induction false} GroupedIsShaped(items: seq<Item>, n: nat)
    requires Grouped(items, 0, n)
    ensures Shaped(items)
  {
  }

  lemma {:induction false} LooseApart(ms: seq<Message>, lo: nat, hi: nat)
    requires lo <= hi <= |ms|
    ensures Apart(Loose(ms, lo, hi))
    ensures forall j :: 0 <= j < |Loose(ms, lo, hi)| ==> Loose(ms, lo, hi)[j].body.Row?
  {
    if lo < hi { LooseApart(ms, lo, hi - 1); }
  }

  lemma {:induction false} PromptsApart(prompts: seq<string>)
    ensures Apart(Prompts(prompts))
    ensures forall j :: 0 <= j < |prompts| ==> Prompts(prompts)[j].key == prompts[j]
  {
    if prompts != [] { PromptsApart(prompts[..|prompts| - 1]); }
  }

  /** Items of different turns never interleave; the 16px gap is under an item exactly when it ends its
      turn's block or belongs to no turn. */
  lemma {:induction false} BlocksAndGaps(c: Chat, start: nat)
    requires start <= |c.messages|
    ensures Shaped(Layout(c, start))
  {
    hide TurnItems, Layout;
    LayoutParts(c, start);
    TurnItemsGroup(c, start);
    GroupedIsShaped(TurnItems(c, start), |c.turns|);
    LooseApart(c.messages, start, FirstCovered(c, start));
    PromptsApart(c.prompts);
    GapsAround(Head(c, start), TurnItems(c, start), Prompts(c.prompts));
    OrderAround(Head(c, start), TurnItems(c, start), Prompts(c.prompts));
    TogetherAround(Head(c, start), TurnItems(c, start), Prompts(c.prompts));
    RanksAround(Head(c, start), TurnItems(c, start), Prompts(c.prompts));
  }

  // ---- keys ----

  /** The ids the keys are made of name one thing each, and do not collide across kinds. */
  ghost predicate DistinctIds(c: Chat) {
    (forall a, b :: 0 <= a < b < |c.messages| ==> c.messages[a].id != c.messages[b].id)
    && (forall a, b :: 0 <= a < b < |c.turns| ==> c.turns[a].id != c.turns[b].id)
    && Distinct(c.prompts)
    && (forall a, k, s :: 0 <= a < |c.messages| && 0 <= k < |c.turns| && s in {":work", ":rule", ":tail"}
          ==> c.messages[a].id != c.turns[k].id + s)
    && (forall p, k, s :: p in c.prompts && 0 <= k < |c.turns| && s in {":work", ":rule", ":tail"}
          ==> p != c.turns[k].id + s)
    && (forall a :: 0 <= a < |c.messages| ==> c.messages[a].id !in c.prompts)
  }

  lemma {:induction false} SuffixCancels(a: string, b: string, s: string, t: string)
    requires |s| == |t| && a + s == b + t
    ensures a == b && s == t
  {
    assert a == (a + s)[..|a|] && b == (b + t)[..|b|];
    assert s == (a + s)[|a|..] && t == (b + t)[|b|..];
  }

  /** Prompts are the last items, in the order they were asked. */
  lemma {:induction false} PromptPlace(c: Chat, start: nat, a: nat)
    requires start <= |c.messages| && Ordered(c.turns)
    requires a < |Layout(c, start)| && Layout(c, start)[a].body.Interact?
    ensures var before := |Layout(c, start)| - |c.prompts|;
            before <= a && Layout(c, start)[a].key == c.prompts[a - before]
  {
    hide Block, Blocks, LiveSeam, Layout, TurnItems, ItemOk;
    LayoutOk(c, start);
    LayoutParts(c, start);
    TurnItemsGroup(c, start);
    LooseApart(c.messages, start, FirstCovered(c, start));
    PromptsApart(c.prompts);
    InLastPart(c, Head(c, start), TurnItems(c, start), c.prompts, a);
  }

  lemma {:induction false} InLastPart(c: Chat, head: seq<Item>, turns: seq<Item>, prompts: seq<string>, a: nat)
    requires a < |head + turns + Prompts(prompts)| && (head + turns + Prompts(prompts))[a].body.Interact?
    requires ItemsOk(c, head + turns + Prompts(prompts))
    requires forall j :: 0 <= j < |head| ==> head[j].body.Row?
    requires Grouped(turns, 0, |c.turns|)
    ensures a >= |head| + |turns| && (head + turns + Prompts(prompts))[a].key == prompts[a - |head| - |turns|]
  {
    var all := head + turns + Prompts(prompts);
    PromptsApart(prompts);
    assert ItemOk(c, all[a]);
  }

  ghost predicate PromptsDiffer(items: seq<Item>) {
    forall a, b :: 0 <= a < b < |items| && items[a].body.Interact? && items[b].body.Interact?
      ==> items[a].key != items[b].key
  }

  /** Two items of one list never share a key. */
  lemma {:induction false} KeysAreUnique(c: Chat, start: nat)
    requires start <= |c.messages| && Ordered(c.turns) && DistinctIds(c)
    ensures var items := Layout(c, start); forall a, b :: 0 <= a < b < |items| ==> items[a].key != items[b].key
  {
    var items := Layout(c, start);
    LayoutOk(c, start);
    BlocksAndGaps(c, start);
    forall a, b | 0 <= a < b < |items| && items[a].body.Interact? && items[b].body.Interact?
      ensures items[a].key != items[b].key
    {
      PromptPlace(c, start, a);
      PromptPlace(c, start, b);
    }
    forall i: nat ensures AtMostOneRow(items, i) { RowsAreTheWindow(c, start, i); }
    forall a, b | 0 <= a < b < |items| ensures items[a].key != items[b].key { KeysDiffer(c, items, a, b); }
  }

  lemma {:induction false} KeysDiffer(c: Chat, items: seq<Item>, a: nat, b: nat)
    requires DistinctIds(c) && ItemsOk(c, items) && RanksAscend(items) && PromptsDiffer(items)
    requires forall i: nat :: AtMostOneRow(items, i)
    requires a < b < |items|
    ensures items[a].key != items[b].key
  {
    var x, y := items[a], items[b];
    assert ItemOk(c, x) && ItemOk(c, y);
    if x.body.Row? && y.body.Row? {
      assert AtMostOneRow(items, x.body.i);
      assert IsRowOf(x, x.body.i);
    } else if Chrome(x) && Chrome(y) {
      ChromeKeysDiffer(c, x, y);
    } else if !(x.body.Interact? && y.body.Interact?) {
      KindsDiffer(c, x, y);
    }
  }

  function Suffix(item: Item): string {
    match item.body
    case Work(_) => ":work"
    case Rule => ":rule"
    case _ => ":tail"
  }

  lemma {:induction false} ChromeKeysDiffer(c: Chat, x: Item, y: Item)
    requires DistinctIds(c) && ItemOk(c, x) && ItemOk(c, y) && Chrome(x) && Chrome(y)
    requires x.turnIdx == y.turnIdx ==> Rank(x) != Rank(y)
    ensures x.key != y.key
  {
    assert Suffix(x)[4] != Suffix(y)[4] || Rank(x) == Rank(y);
    if x.key == y.key {
      SuffixCancels(c.turns[x.turnIdx].id, c.turns[y.turnIdx].id, Suffix(x), Suffix(y));
    }
  }

  lemma {:induction false} KindsDiffer(c: Chat, x: Item, y: Item)
    requires DistinctIds(c) && ItemOk(c, x) && ItemOk(c, y)
    requires !(x.body.Row? && y.body.Row?) && !(x.body.Interact? && y.body.Interact?) && !(Chrome(x) && Chrome(y))
    ensures x.key != y.key
  {
  }
}
