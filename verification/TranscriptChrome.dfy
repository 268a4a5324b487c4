/** What the list says about a turn besides its rows: when it has a header, a rule and a closing item, what these say,
    and where they stand. Everything here is stated on the conversation's own fields. */
module TranscriptChrome {
  import opened Sequences
  import opened Options
  import opened Transcript
  import opened TranscriptBuilder
  import opened TranscriptLaws
  import opened TranscriptShape

  // ---- the conversation by itself ----

  predicate Running(c: Chat, k: nat)
    requires k < |c.turns|
  {
    c.busy && k + 1 == |c.turns| && !c.turns[k].finished
  }

  /** The window holds a row of turn k. */
  ghost predicate InWindow(c: Chat, k: nat, start: nat)
    requires k < |c.turns|
  {
    exists i: nat :: start <= i < |c.messages| && Owns(c.turns, k, i)
  }

  /** The window holds turn k from its first row on. */
  ghost predicate Whole(c: Chat, k: nat, start: nat)
    requires k < |c.turns|
  {
    start <= c.turns[k].start && InWindow(c, k, start)
  }

  /** Turn k runs and has no row yet. */
  predicate AtSeam(c: Chat, k: nat)
    requires k < |c.turns|
  {
    Running(c, k) && c.turns[k].start >= |c.messages|
  }

  /** Message i is an assistant row of turn k. */
  ghost predicate Answers(c: Chat, k: nat, i: nat)
    requires k < |c.turns|
  {
    i < |c.messages| && Owns(c.turns, k, i) && c.messages[i].role == Assistant
  }

  ghost predicate AnswersLater(c: Chat, k: nat, i: nat)
    requires k < |c.turns|
  {
    exists j: nat :: i < j && Answers(c, k, j)
  }

  /** The rows of turn k that did work before its reply. */
  ghost function WorkRows(c: Chat, k: nat): set<nat>
    requires k < |c.turns|
  {
    set i | 0 <= i < |c.messages| && Answers(c, k, i) && c.messages[i].shows && AnswersLater(c, k, i)
  }

  predicate KnowsItsTime(turn: Turn) {
    match turn.durationMs case Some(ms) => ms >= 0 case None => false
  }

  predicate FoldsToTell(turn: Turn) {
    match turn.compaction
    case Some(p) => p.folds > 0 || p.failures > 0 || p.notified
    case None => false
  }

  /** The chat's own failure, which speaks for the last turn once nothing runs. */
  predicate ChatFailed(c: Chat, k: nat) {
    !c.busy && c.failed.Some? && k + 1 == |c.turns|
  }

  /** How turn k ended badly: in its own words, or else in the chat's. */
  function BadEnd(c: Chat, k: nat): Option<EndKind>
    requires k < |c.turns|
  {
    match c.turns[k].status
    case Some(Ended(kind)) => Some(kind)
    case _ => if ChatFailed(c, k) then Some(c.failed.value.status) else None
  }

  // ---- the chrome of a turn in a list ----

  datatype Kind = Headers | Rules | Footers

  predicate IsKind(body: Body, kind: Kind) {
    match kind
    case Headers => body.Work?
    case Rules => body.Rule?
    case Footers => body.Footer?
  }

  /** What a list says about turn k in items of one kind. */
  function ChromeOf(items: seq<Item>, k: int, kind: Kind): seq<Body> {
    if items == [] then []
    else
      var last := items[|items| - 1];
      ChromeOf(items[..|items| - 1], k, kind)
      + if last.turnIdx == k && IsKind(last.body, kind) then [last.body] else []
  }

  lemma {:induction false} ChromeConcat(a: seq<Item>, b: seq<Item>, k: int, kind: Kind)
    ensures ChromeOf(a + b, k, kind) == ChromeOf(a, k, kind) + ChromeOf(b, k, kind)
    decreases |b|
  {
    if b == [] {
      assert a + b == a;
    } else {
      assert (a + b)[..|a + b| - 1] == a + b[..|b| - 1];
      ChromeConcat(a, b[..|b| - 1], k, kind);
    }
  }

  lemma {:induction false} ChromeOfClose(items: seq<Item>, k: int, kind: Kind)
    requires items != []
    ensures ChromeOf(Close(items), k, kind) == ChromeOf(items, k, kind)
  {
    assert Close(items)[..|items| - 1] == items[..|items| - 1];
  }

  lemma {:induction false} NoneOf(items: seq<Item>, k: int, kind: Kind)
    requires forall j :: 0 <= j < |items| ==> items[j].turnIdx != k || !IsKind(items[j].body, kind)
    ensures ChromeOf(items, k, kind) == []
  {
    if items != [] { NoneOf(items[..|items| - 1], k, kind); }
  }

  lemma {:induction false} OneOf(item: Item, k: int, kind: Kind)
    ensures ChromeOf([item], k, kind) == if item.turnIdx == k && IsKind(item.body, kind) then [item.body] else []
  {
    assert [item][..0] == [];
  }

  lemma {:induction false} RowsSayNothing(ms: seq<Message>, turns: seq<Turn>, k: nat, idxs: seq<nat>, kind: Kind)
    requires k < |turns| && forall j :: 0 <= j < |idxs| ==> idxs[j] < |ms|
    ensures ChromeOf(Rows(ms, turns, k, idxs), k, kind) == []
  {
    if idxs != [] {
      var front := idxs[..|idxs| - 1];
      RowsSayNothing(ms, turns, k, front, kind);
      ChromeConcat(Rows(ms, turns, k, front), [RowItem(ms, turns, idxs[|idxs| - 1], Some(k), k)], k, kind);
      OneOf(RowItem(ms, turns, idxs[|idxs| - 1], Some(k), k), k, kind);
    }
  }

  lemma {:induction false} SixParts(a: seq<Item>, b: seq<Item>, d: seq<Item>, e: seq<Item>, f: seq<Item>,
                                    g: seq<Item>, k: int, kind: Kind)
    ensures ChromeOf(a + b + d + e + f + g, k, kind)
            == ChromeOf(a, k, kind) + ChromeOf(b, k, kind) + ChromeOf(d, k, kind) + ChromeOf(e, k, kind)
               + ChromeOf(f, k, kind) + ChromeOf(g, k, kind)
  {
    hide ChromeOf;
    ChromeConcat(a, b, k, kind);
    ChromeConcat(a + b, d, k, kind);
    ChromeConcat(a + b + d, e, k, kind);
    ChromeConcat(a + b + d + e, f, k, kind);
    ChromeConcat(a + b + d + e + f, g, k, kind);
  }

  /** The parts of a turn's block that are not rows. */
  lemma {:induction false} WholeSays(c: Chat, k: nat, lo: nat, hi: nat, kind: Kind)
    requires k < |c.turns| && lo < hi <= |c.messages|
    ensures ChromeOf(WholeItems(c, k, lo, hi), k, kind)
            == ChromeOf(HeaderPart(c, k, lo, hi), k, kind) + ChromeOf(RulePart(c, k, lo, hi), k, kind)
               + ChromeOf(Tail(c, k, ShowWork(c, k, lo, hi)), k, kind)
  {
    hide Joined, HeaderPart, RulePart, Tail, ShowWork, Under, Select, Rows, ChromeOf, WholeItems;
    var body := Under(c, k, lo, hi);
    WholeParts(c, k, lo, hi);
    SixParts(Rows(c.messages, c.turns, k, Select(lo, hi, Asks(c.messages))), HeaderPart(c, k, lo, hi),
             Rows(c.messages, c.turns, k, body.0), RulePart(c, k, lo, hi),
             Rows(c.messages, c.turns, k, body.1), Tail(c, k, ShowWork(c, k, lo, hi)), k, kind);
    RowsSayNothing(c.messages, c.turns, k, Select(lo, hi, Asks(c.messages)), kind);
    RowsSayNothing(c.messages, c.turns, k, body.0, kind);
    RowsSayNothing(c.messages, c.turns, k, body.1, kind);
  }

  lemma {:induction false} PartSays(c: Chat, k: nat, lo: nat, hi: nat, kind: Kind)
    requires k < |c.turns| && hi <= |c.messages|
    ensures ChromeOf(PartItems(c, k, lo, hi), k, kind) == ChromeOf(Tail(c, k, false), k, kind)
  {
    hide Tail, Select, Rows, ChromeOf;
    ChromeConcat(Rows(c.messages, c.turns, k, Select(lo, hi, All(c.messages))), Tail(c, k, false), k, kind);
    RowsSayNothing(c.messages, c.turns, k, Select(lo, hi, All(c.messages)), kind);
  }

  lemma {:induction false} BlockSays(c: Chat, k: nat, start: nat, kind: Kind)
    requires k < |c.turns|
    ensures var lo, hi := Lo(c, k, start), Hi(c, k);
            ChromeOf(Block(c, k, start), k, kind)
            == if lo >= hi then []
               else if lo != c.turns[k].start then ChromeOf(Tail(c, k, false), k, kind)
               else ChromeOf(HeaderPart(c, k, lo, hi), k, kind) + ChromeOf(RulePart(c, k, lo, hi), k, kind)
                    + ChromeOf(Tail(c, k, ShowWork(c, k, lo, hi)), k, kind)
  {
    hide HeaderPart, RulePart, Tail, ShowWork, WholeItems, PartItems, Close;
    var lo, hi := Lo(c, k, start), Hi(c, k);
    if lo < hi {
      if lo == c.turns[k].start {
        WholeItemsNonEmpty(c, k, lo, hi);
        ChromeOfClose(WholeItems(c, k, lo, hi), k, kind);
        WholeSays(c, k, lo, hi, kind);
      } else {
        PartItemsNonEmpty(c, k, lo, hi);
        ChromeOfClose(PartItems(c, k, lo, hi), k, kind);
        PartSays(c, k, lo, hi, kind);
      }
    } else {
      NoneOf([], k, kind);
    }
  }

  lemma {:induction false} OthersSayNothing(c: Chat, m: nat, start: nat, k: int, kind: Kind)
    requires m < |c.turns| && k != m
    ensures ChromeOf(Block(c, m, start), k, kind) == []
  {
    hide Block;
    BlockGroups(c, m, start);
    NoneOf(Block(c, m, start), k, kind);
  }

  lemma {:induction false} BlocksSay(c: Chat, m: nat, start: nat, k: nat, kind: Kind)
    requires m <= |c.turns| && k < |c.turns|
    ensures ChromeOf(Blocks(c, 0, m, start), k, kind)
            == if k < m then ChromeOf(Block(c, k, start), k, kind) else []
  {
    hide Block;
    if m > 0 {
      BlocksSay(c, m - 1, start, k, kind);
      ChromeConcat(Blocks(c, 0, m - 1, start), Block(c, m - 1, start), k, kind);
      if m - 1 != k { OthersSayNothing(c, m - 1, start, k, kind); }
    }
  }

  /** The list says of turn k what its block says, and the seam when it is the last. */
  lemma {:induction false} LayoutSays(c: Chat, start: nat, k: nat, kind: Kind)
    requires start <= |c.messages| && k < |c.turns|
    ensures ChromeOf(Layout(c, start), k, kind)
            == ChromeOf(Block(c, k, start), k, kind) + ChromeOf(LiveSeam(c), k, kind)
  {
    hide Head, Block, Blocks, LiveSeam, Prompts, ChromeOf;
    var head, blocks := Head(c, start), Blocks(c, 0, |c.turns|, start);
    ChromeConcat(head + blocks + LiveSeam(c), Prompts(c.prompts), k, kind);
    ChromeConcat(head + blocks, LiveSeam(c), k, kind);
    ChromeConcat(head, blocks, k, kind);
    BlocksSay(c, |c.turns|, start, k, kind);
    HeadApart(c, start);
    NoneOf(head, k, kind);
    PromptsApart(c.prompts);
    NoneOf(Prompts(c.prompts), k, kind);
  }

  lemma {:induction false} HeadApart(c: Chat, start: nat)
    requires start <= |c.messages|
    ensures TranscriptShape.Apart(Head(c, start))
  {
    LooseApart(c.messages, start, FirstCovered(c, start));
  }

  lemma {:induction false} SeamIsLast(c: Chat)
    ensures forall j :: 0 <= j < |LiveSeam(c)| ==> LiveSeam(c)[j].turnIdx == |c.turns| - 1
  {
  }

  lemma {:induction false} SeamIs(c: Chat, k: nat)
    requires k < |c.turns|
    ensures AtSeam(c, k) ==> LiveSeam(c) == Close([WorkItem(c, k, 0)] + Tail(c, k, false))
    ensures !AtSeam(c, k) && k + 1 == |c.turns| ==> LiveSeam(c) == []
  {
    hide Tail, Close;
  }

  lemma {:induction false} SeamSays(c: Chat, k: nat, kind: Kind)
    requires k < |c.turns|
    ensures ChromeOf(LiveSeam(c), k, kind)
            == if !AtSeam(c, k) then []
               else (if kind == Headers then [Work(0)] else []) + ChromeOf(Tail(c, k, false), k, kind)
  {
    hide Tail, Close, LiveSeam, ChromeOf;
    SeamIs(c, k);
    if AtSeam(c, k) {
      ChromeOfClose([WorkItem(c, k, 0)] + Tail(c, k, false), k, kind);
      ChromeConcat([WorkItem(c, k, 0)], Tail(c, k, false), k, kind);
      OneOf(WorkItem(c, k, 0), k, kind);
    } else {
      SeamIsLast(c);
      NoneOf(LiveSeam(c), k, kind);
    }
  }

  /** What the window holds of turn k, in the terms the blocks are cut by. */
  lemma {:induction false} Cut(c: Chat, k: nat, start: nat)
    requires Ordered(c.turns) && k < |c.turns| && start <= |c.messages|
    ensures InWindow(c, k, start) <==> Lo(c, k, start) < Hi(c, k)
    ensures Whole(c, k, start) <==> Lo(c, k, start) < Hi(c, k) && Lo(c, k, start) == c.turns[k].start
    ensures AtSeam(c, k) ==> !InWindow(c, k, start)
  {
    if InWindow(c, k, start) {
      var i: nat :| start <= i < |c.messages| && Owns(c.turns, k, i);
      OwnerCovers(c, k, start, i);
    }
    if Lo(c, k, start) < Hi(c, k) { OwnerCovers(c, k, start, Lo(c, k, start)); }
  }

  /** The steps of a turn in the window are its work rows. */
  lemma {:induction false} StepsAreWork(c: Chat, k: nat, start: nat)
    requires Ordered(c.turns) && k < |c.turns| && start <= |c.messages| && Whole(c, k, start)
    ensures var lo, hi := Lo(c, k, start), Hi(c, k);
            |Steps(c.messages, lo, hi)| == |WorkRows(c, k)|
            && (LastReply(c.messages, lo, hi).Some? <==> exists i: nat :: Answers(c, k, i))
  {
    var lo, hi := Lo(c, k, start), Hi(c, k);
    Cut(c, k, start);
    forall i: nat ensures Answers(c, k, i) <==> lo <= i < hi && IsAssistant(c.messages, i) {
      OwnedHere(c, k, start, i);
    }
    forall i: nat ensures i in Steps(c.messages, lo, hi) <==> i in WorkRows(c, k) { StepIsWork(c, k, start, i); }
    SelectAscends(lo, hi, StepIn(c.messages, lo, hi));
    CountsAlike(Steps(c.messages, lo, hi), WorkRows(c, k));
    if i: nat :| Answers(c, k, i) { LastReplyIsLast(c.messages, lo, hi, i); }
    if LastReply(c.messages, lo, hi).Some? { assert Answers(c, k, LastReply(c.messages, lo, hi).value); }
  }

  lemma {:induction false} OwnedHere(c: Chat, k: nat, start: nat, i: nat)
    requires Ordered(c.turns) && k < |c.turns| && start <= |c.messages| && Whole(c, k, start)
    ensures Answers(c, k, i) <==> Lo(c, k, start) <= i < Hi(c, k) && IsAssistant(c.messages, i)
  {
    Cut(c, k, start);
    if start <= i < |c.messages| { OwnerCovers(c, k, start, i); }
  }

  lemma {:induction false} StepIsWork(c: Chat, k: nat, start: nat, i: nat)
    requires Ordered(c.turns) && k < |c.turns| && start <= |c.messages| && Whole(c, k, start)
    ensures i in Steps(c.messages, Lo(c, k, start), Hi(c, k)) <==> i in WorkRows(c, k)
  {
    var ms, lo, hi := c.messages, Lo(c, k, start), Hi(c, k);
    SelectMembers(lo, hi, StepIn(ms, lo, hi), i);
    LaterReply(c, k, start, i);
    OwnedHere(c, k, start, i);
  }

  /** An assistant row comes before the turn's reply exactly when another follows it in the turn. */
  lemma {:induction false} LaterReply(c: Chat, k: nat, start: nat, i: nat)
    requires Ordered(c.turns) && k < |c.turns| && start <= |c.messages| && Whole(c, k, start)
    ensures Answers(c, k, i) ==>
              LastReply(c.messages, Lo(c, k, start), Hi(c, k)).Some?
              && (AnswersLater(c, k, i) <==> i < LastReply(c.messages, Lo(c, k, start), Hi(c, k)).value)
  {
    var ms, lo, hi := c.messages, Lo(c, k, start), Hi(c, k);
    if Answers(c, k, i) {
      OwnedHere(c, k, start, i);
      LastReplyIsLast(ms, lo, hi, i);
      var last := LastReply(ms, lo, hi).value;
      OwnedHere(c, k, start, last);
      assert i < last ==> AnswersLater(c, k, i);
      if AnswersLater(c, k, i) {
        var j: nat :| i < j && Answers(c, k, j);
        OwnedHere(c, k, start, j);
        LastReplyIsLast(ms, lo, hi, j);
      }
    }
  }

  lemma {:induction false} CountsAlike(s: seq<nat>, t: set<nat>)
    requires Ascending(s) && forall i: nat :: i in s <==> i in t
    ensures |s| == |t|
  {
    if s == [] {
      assert t == {};
    } else {
      var front, last := s[..|s| - 1], s[|s| - 1];
      assert s == front + [last];
      assert forall i: nat :: i in front <==> i in t - {last};
      CountsAlike(front, t - {last});
    }
  }

  // ---- the laws ----

  /** A turn has one header exactly when the window holds it whole and it runs, knows its time or did work before its
      reply, or when it runs without a row yet; the header counts the rows of work. */
  lemma {:induction false} HeaderWhenThereIsWork(c: Chat, start: nat, k: nat)
    requires start <= |c.messages| && Ordered(c.turns) && k < |c.turns|
    ensures ChromeOf(Layout(c, start), k, Headers)
            == if AtSeam(c, k) then [Work(0)]
               else if Whole(c, k, start) && (Running(c, k) || KnowsItsTime(c.turns[k]) || WorkRows(c, k) != {})
               then [Work(|WorkRows(c, k)|)]
               else []
  {
    hide Layout, Block, LiveSeam, RulePart, Tail, Lo, Hi, Steps, ChromeOf, Whole, InWindow, WorkRows;
    LayoutSays(c, start, k, Headers);
    SeamSays(c, k, Headers);
    BlockSays(c, k, start, Headers);
    Cut(c, k, start);
    OnlyFooters(c, k, false, Headers);
    var lo, hi := Lo(c, k, start), Hi(c, k);
    OnlyFooters(c, k, ShowWork(c, k, lo, hi), Headers);
    OnlyRules(c, k, lo, hi, Headers);
    HeaderSays(c, k, lo, hi, Headers);
    if Whole(c, k, start) { StepsAreWork(c, k, start); }
  }

  lemma {:induction false} HeaderSays(c: Chat, k: nat, lo: nat, hi: nat, kind: Kind)
    requires k < |c.turns|
    ensures ChromeOf(HeaderPart(c, k, lo, hi), k, kind)
            == if kind == Headers && ShowWork(c, k, lo, hi) then [Work(|Steps(c.messages, lo, hi)|)] else []
  {
    hide ShowWork, Steps;
    OneOf(WorkItem(c, k, |Steps(c.messages, lo, hi)|), k, kind);
  }

  lemma {:induction false} OnlyRules(c: Chat, k: nat, lo: nat, hi: nat, kind: Kind)
    requires k < |c.turns|
    ensures ChromeOf(RulePart(c, k, lo, hi), k, kind)
            == if kind == Rules && !Live(c, k) && LastReply(c.messages, lo, hi).Some? && ShowWork(c, k, lo, hi)
               then [Rule] else []
  {
    hide ShowWork, LastReply;
    OneOf(RuleItem(c, k), k, kind);
  }

  lemma {:induction false} OnlyFooters(c: Chat, k: nat, showWork: bool, kind: Kind)
    requires k < |c.turns| && kind != Footers
    ensures ChromeOf(Tail(c, k, showWork), k, kind) == []
  {
    NoneOf(Tail(c, k, showWork), k, kind);
  }

  /** A turn has one rule exactly when it has ended, has a reply, and has a header in a window that holds it whole. */
  lemma {:induction false} RuleUnderAHeader(c: Chat, start: nat, k: nat)
    requires start <= |c.messages| && Ordered(c.turns) && k < |c.turns|
    ensures ChromeOf(Layout(c, start), k, Rules)
            == if !Running(c, k) && (exists i: nat :: Answers(c, k, i)) && ChromeOf(Layout(c, start), k, Headers) != []
               then [Rule] else []
  {
    hide Layout, Block, LiveSeam, HeaderPart, RulePart, Tail, Lo, Hi, Steps, ChromeOf, Whole, InWindow, WorkRows,
         Answers;
    HeaderWhenThereIsWork(c, start, k);
    LayoutSays(c, start, k, Rules);
    SeamSays(c, k, Rules);
    BlockSays(c, k, start, Rules);
    Cut(c, k, start);
    OnlyFooters(c, k, false, Rules);
    var lo, hi := Lo(c, k, start), Hi(c, k);
    OnlyFooters(c, k, ShowWork(c, k, lo, hi), Rules);
    OnlyRules(c, k, lo, hi, Rules);
    HeaderSays(c, k, lo, hi, Rules);
    if Whole(c, k, start) { StepsAreWork(c, k, start); }
  }

  /** The closing item's own words. */
  function LastWords(c: Chat, k: nat, statusLine: bool): Body
    requires k < |c.turns|
  {
    var turn, end := c.turns[k], BadEnd(c, k);
    Footer(statusLine, end,
           if turn.error.Some? then turn.error else if ChatFailed(c, k) then c.failed.value.error else None,
           ChatFailed(c, k),
           !c.busy && k + 1 == |c.turns|
           && (end == Some(Interrupted) || (end == Some(Canceled) && turn.errorKind == Some("timeout"))))
  }

  /** The turn's time is not in a header: there is none, or it is the one of a run without a row yet. */
  ghost predicate TimeUntold(c: Chat, start: nat, k: nat)
    requires start <= |c.messages| && k < |c.turns|
  {
    ChromeOf(Layout(c, start), k, Headers) == [] || AtSeam(c, k)
  }

  /** A turn with a row in the window, or running without one, has one closing item exactly when it left documents, its
      context was folded, it ended badly, or its time is known and no header tells it; and no other turn has one. The
      item tells the time in the last case only, gives the turn's own end and error before the chat's, and offers to
      resume only the last turn of an idle chat, when it was interrupted or ran into its deadline. */
  lemma {:induction false} FooterWhenThereIsMoreToSay(c: Chat, start: nat, k: nat)
    requires start <= |c.messages| && Ordered(c.turns) && k < |c.turns|
    ensures var turn := c.turns[k];
            var time := KnowsItsTime(turn) && TimeUntold(c, start, k);
            ChromeOf(Layout(c, start), k, Footers)
            == if (InWindow(c, k, start) || AtSeam(c, k))
                  && (turn.docs > 0 || FoldsToTell(turn) || BadEnd(c, k).Some? || time)
               then [LastWords(c, k, time)] else []
  {
    hide Layout, Block, LiveSeam, HeaderPart, RulePart, Tail, Lo, Hi, Steps, ChromeOf, Whole, InWindow, WorkRows,
         LastWords, BadEnd, FoldsToTell, KnowsItsTime, TimeUntold;
    HeaderWhenThereIsWork(c, start, k);
    LayoutSays(c, start, k, Footers);
    SeamSays(c, k, Footers);
    BlockSays(c, k, start, Footers);
    Cut(c, k, start);
    var lo, hi := Lo(c, k, start), Hi(c, k);
    OnlyRules(c, k, lo, hi, Footers);
    HeaderSays(c, k, lo, hi, Footers);
    TailSays(c, k, false);
    TailSays(c, k, ShowWork(c, k, lo, hi));
    WhenUntold(c, start, k);
    if Whole(c, k, start) { ShowsWork(c, k, start); }
  }

  lemma {:induction false} WhenUntold(c: Chat, start: nat, k: nat)
    requires start <= |c.messages| && k < |c.turns|
    ensures TimeUntold(c, start, k) <==> ChromeOf(Layout(c, start), k, Headers) == [] || AtSeam(c, k)
  {
  }

  lemma {:induction false} ShowsWork(c: Chat, k: nat, start: nat)
    requires Ordered(c.turns) && k < |c.turns| && start <= |c.messages| && Whole(c, k, start)
    ensures ShowWork(c, k, Lo(c, k, start), Hi(c, k))
            <==> Running(c, k) || KnowsItsTime(c.turns[k]) || WorkRows(c, k) != {}
  {
    hide Lo, Hi, Steps, WorkRows, Whole;
    StepsAreWork(c, k, start);
  }

  lemma {:induction false} TailSays(c: Chat, k: nat, showWork: bool)
    requires k < |c.turns|
    ensures var turn := c.turns[k];
            var time := KnowsItsTime(turn) && !showWork;
            ChromeOf(Tail(c, k, showWork), k, Footers)
            == if turn.docs > 0 || FoldsToTell(turn) || BadEnd(c, k).Some? || time then [LastWords(c, k, time)] else []
  {
    var tail := Tail(c, k, showWork);
    if tail != [] { OneOf(tail[0], k, Footers); }
  }

  /** A turn on the list that knows its time tells it once, in its header or in its closing item; only one that runs
      without a row yet has the header and tells it below as well. */
  lemma {:induction false} TimeIsToldOnce(c: Chat, start: nat, k: nat)
    requires start <= |c.messages| && Ordered(c.turns) && k < |c.turns|
    requires (InWindow(c, k, start) || AtSeam(c, k)) && KnowsItsTime(c.turns[k])
    ensures var headers, footers := ChromeOf(Layout(c, start), k, Headers), ChromeOf(Layout(c, start), k, Footers);
            var below := |footers| == 1 && footers[0].Footer? && footers[0].statusLine;
            |headers| <= 1 && |footers| <= 1
            && (if AtSeam(c, k) then |headers| == 1 && below else below <==> headers == [])
  {
    hide Layout, ChromeOf, Whole, InWindow, WorkRows, BadEnd, FoldsToTell, KnowsItsTime;
    HeaderWhenThereIsWork(c, start, k);
    FooterWhenThereIsMoreToSay(c, start, k);
  }

  /** What a closing item says of the end: the turn's own end and error come before the chat's, the chat speaks for its
      last turn only, and only that turn can be resumed. */
  lemma {:induction false} FooterSpeaksForItsTurn(c: Chat, start: nat, k: nat, footer: Body)
    requires start <= |c.messages| && Ordered(c.turns) && k < |c.turns|
    requires footer in ChromeOf(Layout(c, start), k, Footers)
    ensures footer.Footer?
    ensures forall kind :: c.turns[k].status == Some(Ended(kind)) ==> footer.endStatus == Some(kind)
    ensures c.turns[k].error.Some? ==> footer.endError == c.turns[k].error
    ensures c.busy || k + 1 < |c.turns| ==> !footer.liveEnd && !footer.resumable && footer.endError == c.turns[k].error
    ensures footer.resumable ==> footer.endStatus == Some(Interrupted) || footer.endStatus == Some(Canceled)
  {
    hide Layout, ChromeOf, Whole, InWindow, WorkRows, FoldsToTell, KnowsItsTime, TimeUntold;
    FooterWhenThereIsMoreToSay(c, start, k);
  }

  // ---- where the parts of a turn stand ----

  /** How far down its turn an item stands: asks, header, what runs or did work, rule, steers and reply, closing item. A
      turn the window opens inside has rows and a closing item only. */
  ghost function Stage(c: Chat, k: nat, start: nat, body: Body): nat
    requires k < |c.turns|
  {
    match body
    case Work(_) => 1
    case Rule => 3
    case Footer(_, _, _, _, _) => 5
    case Interact => 5
    case Row(i, _, _) =>
      if i >= |c.messages| || start > c.turns[k].start then 0
      else
        var m := c.messages[i];
        if m.role == User && !m.steer then 0
        else if Running(c, k) || (m.role == Assistant && AnswersLater(c, k, i)) then 2
        else 4
  }

  ghost predicate InStages(items: seq<Item>, c: Chat, k: nat, start: nat)
    requires k < |c.turns|
  {
    forall a, b :: 0 <= a < b < |items| && items[a].turnIdx == k && items[b].turnIdx == k ==>
      Stage(c, k, start, items[a].body) <= Stage(c, k, start, items[b].body)
  }

  /** Items of one stage. */
  ghost predicate AtStage(items: seq<Item>, c: Chat, k: nat, start: nat, stage: nat)
    requires k < |c.turns|
  {
    forall a :: 0 <= a < |items| ==> Stage(c, k, start, items[a].body) == stage
  }

  /** Items of stages up to a bound. */
  ghost predicate StagedTo(items: seq<Item>, c: Chat, k: nat, start: nat, bound: nat)
    requires k < |c.turns|
  {
    InStages(items, c, k, start) && forall a :: 0 <= a < |items| ==> Stage(c, k, start, items[a].body) <= bound
  }

  lemma {:induction false} NextStage(a: seq<Item>, b: seq<Item>, c: Chat, k: nat, start: nat, bound: nat, stage: nat)
    requires k < |c.turns| && bound <= stage
    requires StagedTo(a, c, k, start, bound) && AtStage(b, c, k, start, stage)
    ensures StagedTo(a + b, c, k, start, stage)
  {
    hide Stage;
  }

  lemma {:induction false} SixStages(a: seq<Item>, b: seq<Item>, d: seq<Item>, e: seq<Item>, f: seq<Item>, g: seq<Item>,
                                     c: Chat, k: nat, start: nat)
    requires k < |c.turns|
    requires AtStage(a, c, k, start, 0) && AtStage(b, c, k, start, 1) && AtStage(d, c, k, start, 2)
    requires AtStage(e, c, k, start, 3) && AtStage(f, c, k, start, 4) && AtStage(g, c, k, start, 5)
    ensures InStages(a + b + d + e + f + g, c, k, start)
  {
    OneStage(a, c, k, start);
    NextStage(a, b, c, k, start, 0, 1);
    NextStage(a + b, d, c, k, start, 1, 2);
    NextStage(a + b + d, e, c, k, start, 2, 3);
    NextStage(a + b + d + e, f, c, k, start, 3, 4);
    NextStage(a + b + d + e + f, g, c, k, start, 4, 5);
  }

  lemma {:induction false} OneStage(items: seq<Item>, c: Chat, k: nat, start: nat)
    requires k < |c.turns| && AtStage(items, c, k, start, 0)
    ensures StagedTo(items, c, k, start, 0)
  {
    hide Stage;
  }

  lemma {:induction false} RowsAtStage(c: Chat, k: nat, start: nat, idxs: seq<nat>, stage: nat)
    requires k < |c.turns| && forall j :: 0 <= j < |idxs| ==> idxs[j] < |c.messages|
    requires forall i, turn, turnStart :: i in idxs ==> Stage(c, k, start, Row(i, turn, turnStart)) == stage
    ensures AtStage(Rows(c.messages, c.turns, k, idxs), c, k, start, stage)
  {
    hide Stage;
    if idxs != [] { RowsAtStage(c, k, start, idxs[..|idxs| - 1], stage); }
  }

  lemma {:induction false} ChromeAtStage(c: Chat, k: nat, start: nat, lo: nat, hi: nat, showWork: bool)
    requires k < |c.turns|
    ensures AtStage(HeaderPart(c, k, lo, hi), c, k, start, 1) && AtStage(RulePart(c, k, lo, hi), c, k, start, 3)
    ensures AtStage(Tail(c, k, showWork), c, k, start, 5)
  {
  }

  lemma {:induction false} AsksAtStage(c: Chat, k: nat, start: nat, lo: nat, hi: nat)
    requires k < |c.turns| && hi <= |c.messages|
    ensures AtStage(Rows(c.messages, c.turns, k, Select(lo, hi, Asks(c.messages))), c, k, start, 0)
  {
    forall i: nat ensures i in Select(lo, hi, Asks(c.messages)) ==> IsAsk(c.messages, i) {
      SelectMembers(lo, hi, Asks(c.messages), i);
    }
    RowsAtStage(c, k, start, Select(lo, hi, Asks(c.messages)), 0);
  }

  lemma {:induction false} AboveAtStage(c: Chat, k: nat, start: nat)
    requires Ordered(c.turns) && k < |c.turns| && start <= |c.messages| && Whole(c, k, start)
    ensures AtStage(Rows(c.messages, c.turns, k, Under(c, k, Lo(c, k, start), Hi(c, k)).0), c, k, start, 2)
  {
    var ms, lo, hi := c.messages, Lo(c, k, start), Hi(c, k);
    forall i: nat | i in Under(c, k, lo, hi).0 ensures !IsAsk(ms, i) && (Live(c, k) || i in WorkRows(c, k)) {
      SelectMembers(lo, hi, NonAsks(ms), i);
      if !Live(c, k) { StepIsWork(c, k, start, i); }
    }
    RowsAtStage(c, k, start, Under(c, k, lo, hi).0, 2);
  }

  lemma {:induction false} BelowAtStage(c: Chat, k: nat, start: nat)
    requires Ordered(c.turns) && k < |c.turns| && start <= |c.messages| && Whole(c, k, start)
    ensures AtStage(Rows(c.messages, c.turns, k, Under(c, k, Lo(c, k, start), Hi(c, k)).1), c, k, start, 4)
  {
    var ms, lo, hi := c.messages, Lo(c, k, start), Hi(c, k);
    var reply := LastReply(ms, lo, hi);
    forall i: nat | i in Under(c, k, lo, hi).1
      ensures !Live(c, k) && (IsSteer(ms, i) || (IsAssistant(ms, i) && !AnswersLater(c, k, i)))
    {
      SelectMembers(lo, hi, AnsweredIn(ms, lo, hi), i);
      SelectMembers(lo, hi, TrailingIn(ms, lo, hi), i);
      if reply == Some(i) {
        OwnedHere(c, k, start, i);
        LaterReply(c, k, start, i);
      }
    }
    RowsAtStage(c, k, start, Under(c, k, lo, hi).1, 4);
  }

  lemma {:induction false} CloseInStages(items: seq<Item>, c: Chat, k: nat, start: nat)
    requires k < |c.turns| && items != [] && InStages(items, c, k, start)
    ensures InStages(Close(items), c, k, start)
  {
    hide Stage;
  }

  lemma {:induction false} PartInStages(c: Chat, k: nat, start: nat, lo: nat, hi: nat)
    requires k < |c.turns| && hi <= |c.messages| && c.turns[k].start < start
    ensures InStages(PartItems(c, k, lo, hi), c, k, start)
  {
    hide Tail;
    var rows := Rows(c.messages, c.turns, k, Select(lo, hi, All(c.messages)));
    RowsAtStage(c, k, start, Select(lo, hi, All(c.messages)), 0);
    OneStage(rows, c, k, start);
    ChromeAtStage(c, k, start, lo, hi, false);
    NextStage(rows, Tail(c, k, false), c, k, start, 0, 5);
  }

  lemma {:induction false} BlockInStages(c: Chat, k: nat, start: nat)
    requires Ordered(c.turns) && k < |c.turns| && start <= |c.messages|
    ensures InStages(Block(c, k, start), c, k, start)
  {
    hide HeaderPart, RulePart, Tail, ShowWork, WholeItems, PartItems, Close, Stage, AtStage, InStages, Under, Select,
         Rows;
    var lo, hi := Lo(c, k, start), Hi(c, k);
    Cut(c, k, start);
    if lo >= hi {
      EmptyInStages(c, k, start);
    } else if lo == c.turns[k].start {
      var body := Under(c, k, lo, hi);
      AsksAtStage(c, k, start, lo, hi);
      AboveAtStage(c, k, start);
      BelowAtStage(c, k, start);
      ChromeAtStage(c, k, start, lo, hi, ShowWork(c, k, lo, hi));
      WholeParts(c, k, lo, hi);
      SixStages(Rows(c.messages, c.turns, k, Select(lo, hi, Asks(c.messages))), HeaderPart(c, k, lo, hi),
                Rows(c.messages, c.turns, k, body.0), RulePart(c, k, lo, hi),
                Rows(c.messages, c.turns, k, body.1), Tail(c, k, ShowWork(c, k, lo, hi)), c, k, start);
      WholeItemsNonEmpty(c, k, lo, hi);
      CloseInStages(WholeItems(c, k, lo, hi), c, k, start);
    } else {
      PartInStages(c, k, start, lo, hi);
      PartItemsNonEmpty(c, k, lo, hi);
      CloseInStages(PartItems(c, k, lo, hi), c, k, start);
    }
  }

  lemma {:induction false} EmptyInStages(c: Chat, k: nat, start: nat)
    requires k < |c.turns|
    ensures InStages([], c, k, start)
  {
  }

  lemma {:induction false} BesideInStages(a: seq<Item>, b: seq<Item>, c: Chat, k: nat, start: nat)
    requires k < |c.turns| && InStages(a, c, k, start) && InStages(b, c, k, start)
    requires (forall j :: 0 <= j < |a| ==> a[j].turnIdx != k) || (forall j :: 0 <= j < |b| ==> b[j].turnIdx != k)
    ensures InStages(a + b, c, k, start)
  {
    hide Stage;
  }

  lemma {:induction false} ElsewhereInStages(items: seq<Item>, c: Chat, k: nat, start: nat)
    requires k < |c.turns| && forall j :: 0 <= j < |items| ==> items[j].turnIdx != k
    ensures InStages(items, c, k, start)
  {
  }

  lemma {:induction false} BlocksInStages(c: Chat, m: nat, start: nat, k: nat)
    requires Ordered(c.turns) && m <= |c.turns| && k < |c.turns| && start <= |c.messages|
    ensures InStages(Blocks(c, 0, m, start), c, k, start)
  {
    hide Block, InStages;
    if m == 0 {
      EmptyInStages(c, k, start);
    } else {
      BlocksInStages(c, m - 1, start, k);
      BlocksGroup(c, m - 1, start);
      BlockGroups(c, m - 1, start);
      if m - 1 == k { BlockInStages(c, k, start); } else { ElsewhereInStages(Block(c, m - 1, start), c, k, start); }
      BesideInStages(Blocks(c, 0, m - 1, start), Block(c, m - 1, start), c, k, start);
    }
  }

  lemma {:induction false} SeamInStages(c: Chat, start: nat, k: nat)
    requires k < |c.turns|
    ensures InStages(LiveSeam(c), c, k, start)
  {
  }

  lemma {:induction false} SeamAlone(c: Chat, start: nat, k: nat)
    requires k < |c.turns|
    ensures (forall j :: 0 <= j < |LiveSeam(c)| ==> LiveSeam(c)[j].turnIdx != k)
            || (forall j :: 0 <= j < |Blocks(c, 0, |c.turns|, start)| ==>
                  Blocks(c, 0, |c.turns|, start)[j].turnIdx != k)
  {
    hide Blocks, Block, LiveSeam;
    SeamIsLast(c);
    if LiveSeam(c) != [] && k + 1 == |c.turns| {
      LastBlockEmpty(c, k, start);
      BlocksGroup(c, k, start);
    }
  }

  lemma {:induction false} LastBlockEmpty(c: Chat, k: nat, start: nat)
    requires k + 1 == |c.turns| && LiveSeam(c) != []
    ensures Blocks(c, 0, |c.turns|, start) == Blocks(c, 0, k, start)
  {
    assert Block(c, k, start) == [];
  }

  /** Every turn reads asks, header, work, rule, steers and reply, closing item, from the top down; a turn the window
      opens inside reads rows, closing item. */
  lemma {:induction false} TurnsReadInStages(c: Chat, start: nat, k: nat)
    requires start <= |c.messages| && Ordered(c.turns) && k < |c.turns|
    ensures InStages(Layout(c, start), c, k, start)
  {
    hide Head, Blocks, LiveSeam, Prompts, InStages;
    var head, blocks, prompts := Head(c, start), Blocks(c, 0, |c.turns|, start), Prompts(c.prompts);
    HeadApart(c, start);
    PromptsApart(c.prompts);
    ElsewhereInStages(head, c, k, start);
    ElsewhereInStages(prompts, c, k, start);
    BlocksInStages(c, |c.turns|, start, k);
    SeamInStages(c, start, k);
    SeamAlone(c, start, k);
    BesideInStages(blocks, LiveSeam(c), c, k, start);
    BesideInStages(head, blocks + LiveSeam(c), c, k, start);
    BesideInStages(head + (blocks + LiveSeam(c)), prompts, c, k, start);
    assert head + (blocks + LiveSeam(c)) == head + blocks + LiveSeam(c);
  }
}
