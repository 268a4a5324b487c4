/** The transcript list: the data it is built from, and what the list is, turn by turn.
    `Layout` is the specification; `TranscriptBuilder` holds the sweep that computes it. */
module Transcript {
  import opened Sequences
  import opened Options

  datatype Role = User | Assistant

  /** `shows` says that grouping the row's items leaves something to render. */
  datatype Message = Message(id: string, role: Role, steer: bool, shows: bool)

  datatype EndKind = Failed | Aborted | Canceled | Interrupted

  datatype Status = Completed | Ended(kind: EndKind)

  datatype Compaction = Compaction(folds: int, failures: int, notified: bool)

  datatype Turn = Turn(
    id: string,
    start: nat,
    finished: bool,
    durationMs: Option<int>,
    docs: nat,
    status: Option<Status>,
    error: Option<string>,
    errorKind: Option<string>,
    compaction: Option<Compaction>)

  /** The conversation's own failed state, when its newest run ended badly. */
  datatype Failure = Failure(status: EndKind, error: Option<string>)

  datatype Chat = Chat(
    messages: seq<Message>,
    turns: seq<Turn>,
    busy: bool,
    failed: Option<Failure>,
    open: set<string>,
    prompts: seq<string>)

  const ROW_PAD: nat := 8
  const TURN_PAD: nat := 16

  datatype Body =
    | Row(i: nat, turn: Option<nat>, turnStart: bool)
    | Work(processCount: nat)
    | Rule
    | Footer(statusLine: bool, endStatus: Option<EndKind>, endError: Option<string>, liveEnd: bool, resumable: bool)
    | Interact

  /** turnIdx is -1 for a row no turn covers and for a prompt. */
  datatype Item = Item(key: string, turnIdx: int, pad: nat, body: Body)

  /** Turn entries are ordered by their first message. */
  ghost predicate Ordered(turns: seq<Turn>) {
    forall a, b :: 0 <= a < b < |turns| ==> turns[a].start <= turns[b].start
  }

  // ---- one turn's facts ----

  predicate IsLast(c: Chat, k: nat) {
    k + 1 == |c.turns|
  }

  predicate Live(c: Chat, k: nat)
    requires k < |c.turns|
  {
    c.busy && IsLast(c, k) && !c.turns[k].finished
  }

  /** A turn has a "worked for" label when its duration is known and not negative. */
  predicate Worked(turn: Turn) {
    turn.durationMs.Some? && turn.durationMs.value >= 0
  }

  predicate HasMessage(ms: seq<Message>, i: nat) {
    i < |ms|
  }

  predicate IsAssistant(ms: seq<Message>, i: nat) {
    i < |ms| && ms[i].role == Assistant
  }

  predicate IsSteer(ms: seq<Message>, i: nat) {
    i < |ms| && ms[i].role != Assistant && ms[i].steer
  }

  predicate IsAsk(ms: seq<Message>, i: nat) {
    i < |ms| && ms[i].role != Assistant && !ms[i].steer
  }

  /** The indices of [lo, hi) that p picks, ascending. */
  ghost function Select(lo: nat, hi: nat, p: iset<nat>): (r: seq<nat>)
    ensures forall j :: 0 <= j < |r| ==> lo <= r[j] < hi
  {
    if hi <= lo then []
    else if hi - 1 in p then Select(lo, hi - 1, p) + [hi - 1]
    else Select(lo, hi - 1, p)
  }

  /** The last assistant row of [lo, hi): the reply the turn folds down to. */
  function LastReply(ms: seq<Message>, lo: nat, hi: nat): (r: Option<nat>)
    ensures r.Some? ==> lo <= r.value < hi && IsAssistant(ms, r.value)
  {
    if hi <= lo then None
    else if IsAssistant(ms, hi - 1) then Some(hi - 1)
    else LastReply(ms, lo, hi - 1)
  }

  lemma {:induction false} LastReplyIsLast(ms: seq<Message>, lo: nat, hi: nat, i: nat)
    requires lo <= i < hi && IsAssistant(ms, i)
    ensures LastReply(ms, lo, hi).Some? && i <= LastReply(ms, lo, hi).value
  {
    if i < hi - 1 { LastReplyIsLast(ms, lo, hi - 1, i); }
  }

  lemma {:induction false} SelectMembers(lo: nat, hi: nat, p: iset<nat>, i: nat)
    ensures i in Select(lo, hi, p) <==> lo <= i < hi && i in p
  {
    if lo < hi { SelectMembers(lo, hi - 1, p, i); }
  }

  /** Each selected index is selected once. */
  lemma {:induction false} SelectCount(lo: nat, hi: nat, p: iset<nat>, i: nat)
    ensures multiset(Select(lo, hi, p))[i] == if lo <= i < hi && i in p then 1 else 0
  {
    if lo < hi { SelectCount(lo, hi - 1, p, i); }
  }

  lemma {:induction false} SelectAscends(lo: nat, hi: nat, p: iset<nat>)
    ensures Ascending(Select(lo, hi, p))
  {
    if lo < hi {
      SelectAscends(lo, hi - 1, p);
      if hi - 1 in p {
        assert Select(lo, hi, p) == Select(lo, hi - 1, p) + [hi - 1];
      }
    }
  }

  /** A step the fold hides: a row that did work before the turn's reply. */
  predicate IsStep(ms: seq<Message>, lo: nat, hi: nat, i: nat) {
    var reply := LastReply(ms, lo, hi);
    reply.Some? && i < reply.value && IsAssistant(ms, i) && ms[i].shows
  }

  /** A steer answered by a later reply, or any steer of a turn without one. */
  predicate IsAnswered(ms: seq<Message>, lo: nat, hi: nat, i: nat) {
    var reply := LastReply(ms, lo, hi);
    IsSteer(ms, i) && (reply.Some? ==> i < reply.value)
  }

  predicate IsTrailing(ms: seq<Message>, lo: nat, hi: nat, i: nat) {
    var reply := LastReply(ms, lo, hi);
    IsSteer(ms, i) && reply.Some? && i > reply.value
  }

  // The kinds of rows a turn tells apart, as sets of message indices.

  ghost function All(ms: seq<Message>): iset<nat> { iset i: nat | HasMessage(ms, i) }

  ghost function Asks(ms: seq<Message>): iset<nat> { iset i: nat | IsAsk(ms, i) }

  ghost function NonAsks(ms: seq<Message>): iset<nat> { iset i: nat | !IsAsk(ms, i) }

  ghost function Assistants(ms: seq<Message>): iset<nat> { iset i: nat | IsAssistant(ms, i) }

  ghost function Steers(ms: seq<Message>): iset<nat> { iset i: nat | IsSteer(ms, i) }

  ghost function StepIn(ms: seq<Message>, lo: nat, hi: nat): iset<nat> { iset i: nat | IsStep(ms, lo, hi, i) }

  ghost function AnsweredIn(ms: seq<Message>, lo: nat, hi: nat): iset<nat> { iset i: nat | IsAnswered(ms, lo, hi, i) }

  ghost function TrailingIn(ms: seq<Message>, lo: nat, hi: nat): iset<nat> { iset i: nat | IsTrailing(ms, lo, hi, i) }

  ghost function Steps(ms: seq<Message>, lo: nat, hi: nat): seq<nat> {
    Select(lo, hi, StepIn(ms, lo, hi))
  }

  // ---- items ----

  function RowItem(ms: seq<Message>, turns: seq<Turn>, i: nat, turn: Option<nat>, turnIdx: int): Item
    requires i < |ms|
    requires turn.Some? ==> turn.value < |turns|
  {
    Item(ms[i].id, turnIdx, if turn.Some? then ROW_PAD else TURN_PAD,
         Row(i, turn, turn.Some? && turns[turn.value].start == i))
  }

  /** The rows of turn k at the given message indices. */
  function Rows(ms: seq<Message>, turns: seq<Turn>, k: nat, idxs: seq<nat>): (r: seq<Item>)
    requires k < |turns|
    requires forall j :: 0 <= j < |idxs| ==> idxs[j] < |ms|
    ensures |r| == |idxs|
  {
    if idxs == [] then []
    else Rows(ms, turns, k, idxs[..|idxs| - 1]) + [RowItem(ms, turns, idxs[|idxs| - 1], Some(k), k)]
  }

  /** The rows [lo, hi) that no turn covers. */
  function Loose(ms: seq<Message>, lo: nat, hi: nat): (r: seq<Item>)
    requires lo <= hi <= |ms|
    ensures |r| == hi - lo
  {
    if lo == hi then [] else Loose(ms, lo, hi - 1) + [RowItem(ms, [], hi - 1, None, -1)]
  }

  function ArchivedEnd(turn: Turn): Option<EndKind> {
    if turn.status.Some? && turn.status.value.Ended? then Some(turn.status.value.kind) else None
  }

  function WorkItem(c: Chat, k: nat, count: nat): Item
    requires k < |c.turns|
  {
    Item(c.turns[k].id + ":work", k, ROW_PAD, Work(count))
  }

  function RuleItem(c: Chat, k: nat): Item
    requires k < |c.turns|
  {
    Item(c.turns[k].id + ":rule", k, ROW_PAD, Rule)
  }

  predicate EndedOnDeadline(status: Option<EndKind>, errorKind: Option<string>) {
    status == Some(Canceled) && errorKind == Some("timeout")
  }

  predicate Compacted(turn: Turn) {
    turn.compaction.Some?
    && (turn.compaction.value.folds > 0 || turn.compaction.value.failures > 0 || turn.compaction.value.notified)
  }

  predicate LiveEnd(c: Chat, k: nat) {
    !c.busy && c.failed.Some? && IsLast(c, k)
  }

  function EndStatus(c: Chat, k: nat): Option<EndKind>
    requires k < |c.turns|
  {
    var archived := ArchivedEnd(c.turns[k]);
    if archived.Some? then archived
    else if LiveEnd(c, k) then Some(c.failed.value.status)
    else None
  }

  /** The turn's tail: what is left to say about it under its rows, if anything. */
  function Tail(c: Chat, k: nat, showWork: bool): (r: seq<Item>)
    requires k < |c.turns|
    ensures |r| <= 1
  {
    var turn := c.turns[k];
    var status := EndStatus(c, k);
    var statusLine := !showWork && Worked(turn);
    if turn.docs == 0 && !statusLine && !Compacted(turn) && status.None? then []
    else
      var error := if turn.error.Some? then turn.error
                   else if LiveEnd(c, k) then c.failed.value.error
                   else None;
      var resumable := !c.busy && IsLast(c, k)
                       && (status == Some(Interrupted) || EndedOnDeadline(status, turn.errorKind));
      [Item(turn.id + ":tail", k, TURN_PAD, Footer(statusLine, status, error, LiveEnd(c, k), resumable))]
  }

  /** The last item of a turn carries the turn's gap. */
  function Close(items: seq<Item>): (r: seq<Item>)
    requires items != []
    ensures |r| == |items|
  {
    items[|items| - 1 := items[|items| - 1].(pad := TURN_PAD)]
  }

  // ---- blocks ----

  ghost function ShowWork(c: Chat, k: nat, lo: nat, hi: nat): bool
    requires k < |c.turns|
  {
    Live(c, k) || Worked(c.turns[k]) || Steps(c.messages, lo, hi) != []
  }

  /** The items of turn k, open or folded, between its header and its tail. */
  ghost function BodyIndices(ms: seq<Message>, lo: nat, hi: nat, live: bool, open: bool): (r: (seq<nat>, seq<nat>))
    ensures forall j :: 0 <= j < |r.0| ==> lo <= r.0[j] < hi
    ensures forall j :: 0 <= j < |r.1| ==> lo <= r.1[j] < hi
  {
    if live then
      (Select(lo, hi, NonAsks(ms)), [])
    else
      var reply := LastReply(ms, lo, hi);
      (if open then Steps(ms, lo, hi) else [],
       Select(lo, hi, AnsweredIn(ms, lo, hi))
       + (if reply.Some? then [reply.value] else [])
       + Select(lo, hi, TrailingIn(ms, lo, hi)))
  }

  /** The fold header of a turn that has one. */
  ghost function HeaderPart(c: Chat, k: nat, lo: nat, hi: nat): seq<Item>
    requires k < |c.turns|
  {
    if ShowWork(c, k, lo, hi) then [WorkItem(c, k, |Steps(c.messages, lo, hi)|)] else []
  }

  /** The rule that closes the steps of an ended turn. */
  ghost function RulePart(c: Chat, k: nat, lo: nat, hi: nat): seq<Item>
    requires k < |c.turns|
  {
    if !Live(c, k) && LastReply(c.messages, lo, hi).Some? && ShowWork(c, k, lo, hi) then [RuleItem(c, k)] else []
  }

  /** The message indices a turn renders under its header: before the rule, and after it. */
  ghost function Under(c: Chat, k: nat, lo: nat, hi: nat): (r: (seq<nat>, seq<nat>))
    requires k < |c.turns|
    ensures forall j :: 0 <= j < |r.0| ==> lo <= r.0[j] < hi
    ensures forall j :: 0 <= j < |r.1| ==> lo <= r.1[j] < hi
  {
    BodyIndices(c.messages, lo, hi, Live(c, k), c.turns[k].id in c.open)
  }

  /** A turn wholly inside the window: asks, header, steps, rule, answered steers, reply, late steers, tail. */
  ghost function WholeItems(c: Chat, k: nat, lo: nat, hi: nat): seq<Item>
    requires k < |c.turns| && hi <= |c.messages|
  {
    var body := Under(c, k, lo, hi);
    Joined([
      Rows(c.messages, c.turns, k, Select(lo, hi, Asks(c.messages))),
      HeaderPart(c, k, lo, hi),
      Rows(c.messages, c.turns, k, body.0),
      RulePart(c, k, lo, hi),
      Rows(c.messages, c.turns, k, body.1),
      Tail(c, k, ShowWork(c, k, lo, hi))])
  }

  function Joined(parts: seq<seq<Item>>): seq<Item> {
    if parts == [] then [] else Joined(parts[..|parts| - 1]) + parts[|parts| - 1]
  }

  lemma {:induction false} JoinedSix(a: seq<Item>, b: seq<Item>, c: seq<Item>, d: seq<Item>, e: seq<Item>, f: seq<Item>)
    ensures Joined([a, b, c, d, e, f]) == a + b + c + d + e + f
  {
    assert [a, b, c, d, e, f][..5] == [a, b, c, d, e];
    assert [a, b, c, d, e][..4] == [a, b, c, d];
    assert [a, b, c, d][..3] == [a, b, c];
    assert [a, b, c][..2] == [a, b];
    assert [a, b][..1] == [a];
    assert [a][..0] == [];
    assert Joined([a]) == a;
    assert Joined([a, b]) == a + b;
    assert Joined([a, b, c]) == a + b + c;
    assert Joined([a, b, c, d]) == a + b + c + d;
    assert Joined([a, b, c, d, e]) == a + b + c + d + e;
  }

  /** The parts of a whole turn, spelled out. */
  lemma {:induction false} WholeParts(c: Chat, k: nat, lo: nat, hi: nat)
    requires k < |c.turns| && hi <= |c.messages|
    ensures var body := Under(c, k, lo, hi);
            WholeItems(c, k, lo, hi)
            == Rows(c.messages, c.turns, k, Select(lo, hi, Asks(c.messages)))
               + HeaderPart(c, k, lo, hi)
               + Rows(c.messages, c.turns, k, body.0)
               + RulePart(c, k, lo, hi)
               + Rows(c.messages, c.turns, k, body.1)
               + Tail(c, k, ShowWork(c, k, lo, hi))
  {
    var body := Under(c, k, lo, hi);
    JoinedSix(Rows(c.messages, c.turns, k, Select(lo, hi, Asks(c.messages))), HeaderPart(c, k, lo, hi),
              Rows(c.messages, c.turns, k, body.0), RulePart(c, k, lo, hi),
              Rows(c.messages, c.turns, k, body.1), Tail(c, k, ShowWork(c, k, lo, hi)));
  }

  /** A turn the window opens inside: its rows, loose, and its tail. */
  ghost function PartItems(c: Chat, k: nat, lo: nat, hi: nat): seq<Item>
    requires k < |c.turns| && hi <= |c.messages|
  {
    Rows(c.messages, c.turns, k, Select(lo, hi, All(c.messages))) + Tail(c, k, false)
  }

  /** A turn with a row in the window always has an item to carry its gap. */
  lemma {:induction false} WholeItemsNonEmpty(c: Chat, k: nat, lo: nat, hi: nat)
    requires k < |c.turns| && lo < hi <= |c.messages|
    ensures WholeItems(c, k, lo, hi) != []
  {
    WholeParts(c, k, lo, hi);
    SelectMembers(lo, hi, Asks(c.messages), lo);
    SelectMembers(lo, hi, NonAsks(c.messages), lo);
    SelectMembers(lo, hi, AnsweredIn(c.messages, lo, hi), lo);
    if IsAssistant(c.messages, lo) { LastReplyIsLast(c.messages, lo, hi, lo); }
  }
  lemma {:induction false} PartItemsNonEmpty(c: Chat, k: nat, lo: nat, hi: nat)
    requires k < |c.turns| && lo < hi <= |c.messages|
    ensures PartItems(c, k, lo, hi) != []
  {
  }

  function Min(a: nat, b: nat): nat { if a <= b then a else b }

  function Max(a: nat, b: nat): nat { if a <= b then b else a }

  /** Where turn k's rows start in a window opening at `start`. */
  function Lo(c: Chat, k: nat, start: nat): nat
    requires k < |c.turns|
  {
    Max(start, Min(c.turns[k].start, |c.messages|))
  }

  /** Where turn k's rows end. */
  function Hi(c: Chat, k: nat): (r: nat)
    requires k < |c.turns|
    ensures r <= |c.messages|
  {
    if IsLast(c, k) then |c.messages| else Min(c.turns[k + 1].start, |c.messages|)
  }

  /** Everything the list holds for turn k in a window opening at `start`. */
  ghost function Block(c: Chat, k: nat, start: nat): seq<Item>
    requires k < |c.turns|
  {
    var lo, hi := Lo(c, k, start), Hi(c, k);
    if lo >= hi then []
    else if lo == c.turns[k].start then
      WholeItemsNonEmpty(c, k, lo, hi);
      Close(WholeItems(c, k, lo, hi))
    else
      PartItemsNonEmpty(c, k, lo, hi);
      Close(PartItems(c, k, lo, hi))
  }

  /** The blocks of turns [k, m). */
  ghost function Blocks(c: Chat, k: nat, m: nat, start: nat): seq<Item>
    requires k <= m <= |c.turns|
    decreases m
  {
    if k == m then [] else Blocks(c, k, m - 1, start) + Block(c, m - 1, start)
  }

  /** The rows before the first turn. */
  function Head(c: Chat, start: nat): seq<Item>
    requires start <= |c.messages|
  {
    var first := if c.turns == [] then |c.messages| else Min(c.turns[0].start, |c.messages|);
    Loose(c.messages, start, Max(start, first))
  }

  /** A live turn whose run has produced no row yet shows up at the end. */
  function LiveSeam(c: Chat): seq<Item> {
    if c.turns == [] then []
    else
      var k := |c.turns| - 1;
      if c.turns[k].start >= |c.messages| && Live(c, k)
      then Close([WorkItem(c, k, 0)] + Tail(c, k, false))
      else []
  }

  function Prompts(prompts: seq<string>): (r: seq<Item>)
    ensures |r| == |prompts|
  {
    if prompts == [] then []
    else Prompts(prompts[..|prompts| - 1]) + [Item(prompts[|prompts| - 1], -1, TURN_PAD, Interact)]
  }

  /** The whole list for a window opening at message `start`. */
  ghost function Layout(c: Chat, start: nat): seq<Item>
    requires start <= |c.messages|
  {
    Head(c, start) + Blocks(c, 0, |c.turns|, start) + LiveSeam(c) + Prompts(c.prompts)
  }
}
