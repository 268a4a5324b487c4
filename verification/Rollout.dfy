/** The rollout log read as turns: what each line does, and what every log keeps. */
module Rollout {
  import opened Options

  /** A call's arguments as far as the report looks: their canonical dump; of an exec, the command line and whether it
      waits by `sleep`; of a read, whether it gives a window, and its limit, or 0 without one. */
  datatype Args = Args(dump: string, command: string, sleeps: bool, windowed: bool, limit: int)

  datatype Content = Content(length: nat, excerpt: bool, timeoutWords: bool)

  /** A point in time, or a clock reading that does not say in which zone it was taken. */
  datatype Time = Time(at: int, offset: bool)

  /** One line of the log. A Malformed line is JSON on which the reader fails wherever it stands: no object, or a start
      whose time is no text. A BadItem is an item whose fields are of the wrong types; only an open turn looks at it. */
  datatype Event =
    | Ignored
    | NotJson
    | Malformed
    | BadItem
    | TurnStarted(time: Option<Time>)
    | TurnEnded(failed: bool)
    | ToolCall(tool: string, args: Args, callId: string)
    | ToolResult(callId: string, content: Option<Content>, isError: bool)
    | AssistantMessage
    | Reasoning

  datatype Sizing = Sizing(length: nat, excerpt: bool, error: bool, timeout: bool)

  /** A call's sixth field: absent until its result comes, then the result or nothing. */
  datatype Slot = Unresolved | NoContent | Sized(sizing: Sizing)

  datatype Call = Call(tool: string, callId: string, key: (string, string), args: Args, slot: Slot)

  datatype Status = Open | Completed | Failed

  datatype Turn = Turn(start: Option<Time>, status: Status, calls: seq<Call>, texts: nat, reasoning: nat)

  datatype Stats = Stats(badLines: nat, unfinished: nat, compactions: nat, orphans: nat, noContent: nat, undated: nat)

  /** The reader between two lines. */
  datatype State = State(turns: seq<Turn>, cur: Option<Turn>, pending: map<string, nat>, stats: Stats)

  const COMPACT: string := "compact-"

  function Fresh(time: Option<Time>): Turn {
    Turn(time, Open, [], 0, 0)
  }

  function Called(e: Event): Call
    requires e.ToolCall?
  {
    Call(e.tool, e.callId, (e.tool, e.args.dump), e.args, Unresolved)
  }

  function Outcome(e: Event): Slot
    requires e.ToolResult?
  {
    match e.content
    case None => NoContent
    case Some(c) => Sized(Sizing(c.length, c.excerpt, e.isError, e.isError && c.timeoutWords))
  }

  function WithCall(t: Turn, c: Call): Turn { t.(calls := t.calls + [c]) }

  function WithSlot(t: Turn, i: nat, slot: Slot): Turn
    requires i < |t.calls|
  {
    t.(calls := t.calls[i := t.calls[i].(slot := slot)])
  }

  /** A result whose call is not waiting. */
  function Unmatched(stats: Stats, callId: string): Stats {
    if COMPACT <= callId then stats.(compactions := stats.compactions + 1)
    else stats.(orphans := stats.orphans + 1)
  }

  /** One line read, or None where the reader raises: on a malformed line, on a bad item of an open turn, or on a
      pending index that is out of range or points to a call that already carries its result. */
  function Step(s: State, e: Event): Option<State> {
    match e
    case Ignored => Some(s)
    case NotJson => Some(s.(stats := s.stats.(badLines := s.stats.badLines + 1)))
    case Malformed => None
    case TurnStarted(time) =>
      var closed := if s.cur.None? then s
                    else s.(stats := s.stats.(unfinished := s.stats.unfinished + 1), turns := s.turns + [s.cur.value]);
      Some(closed.(pending := map[], cur := Some(Fresh(time))))
    case TurnEnded(failed) =>
      if s.cur.None? then Some(s)
      else Some(s.(turns := s.turns + [s.cur.value.(status := if failed then Failed else Completed)], cur := None))
    case _ => if s.cur.None? then Some(s) else InTurn(s, e)
  }

  predicate IsItem(e: Event) {
    e.ToolCall? || e.ToolResult? || e.AssistantMessage? || e.Reasoning? || e.BadItem?
  }

  function InTurn(s: State, e: Event): Option<State>
    requires s.cur.Some? && IsItem(e)
  {
    var t := s.cur.value;
    match e
    case ToolCall(_, _, callId) =>
      Some(s.(pending := s.pending[callId := |t.calls|], cur := Some(WithCall(t, Called(e)))))
    case ToolResult(callId, content, _) =>
      if callId !in s.pending then Some(s.(stats := Unmatched(s.stats, callId)))
      else
        var i := s.pending[callId];
        if i >= |t.calls| || t.calls[i].slot != Unresolved then None
        else
          Some(s.(pending := s.pending - {callId}, cur := Some(WithSlot(t, i, Outcome(e))),
                  stats := if content.None? then s.stats.(noContent := s.stats.noContent + 1) else s.stats))
    case AssistantMessage => Some(s.(cur := Some(t.(texts := t.texts + 1))))
    case Reasoning => Some(s.(cur := Some(t.(reasoning := t.reasoning + 1))))
    case BadItem => None
  }

  function Begin(stats: Stats): State {
    State([], None, map[], stats)
  }

  function ReadLines(events: seq<Event>, stats: Stats): Option<State> {
    if events == [] then Some(Begin(stats))
    else
      var before := ReadLines(events[..|events| - 1], stats);
      if before.None? then None else Step(before.value, events[|events| - 1])
  }

  /** The end of the file leaves an open turn unfinished. */
  function AtEnd(s: State): State {
    if s.cur.None? then s
    else s.(stats := s.stats.(unfinished := s.stats.unfinished + 1), turns := s.turns + [s.cur.value])
  }

  // ---- the window ----

  /** The bounds, which the command line always gives an offset. */
  datatype Window = Window(since: Option<int>, until: Option<int>)

  predicate Bounded(w: Window) {
    w.since.Some? || w.until.Some?
  }

  predicate Inside(w: Window, time: Time) {
    (w.since.Some? ==> w.since.value <= time.at) && (w.until.Some? ==> time.at <= w.until.value)
  }

  predicate NoOffset(start: Option<Time>) {
    start.Some? && !start.value.offset
  }

  /** A bound always has an offset, so comparing it with a start that has none raises. */
  predicate Incomparable(w: Window, turns: seq<Turn>) {
    Bounded(w) && exists i :: 0 <= i < |turns| && NoOffset(turns[i].start)
  }

  predicate Kept(w: Window, t: Turn) {
    if t.start.None? then !Bounded(w) else Inside(w, t.start.value)
  }

  function KeptOf(turns: seq<Turn>, w: Window): seq<Turn> {
    if turns == [] then []
    else
      var t := turns[|turns| - 1];
      KeptOf(turns[..|turns| - 1], w) + if Kept(w, t) then [t] else []
  }

  /** The turns without a start, which a bounded window leaves out and counts. */
  function UndatedOf(turns: seq<Turn>, w: Window): nat {
    if turns == [] then 0
    else
      UndatedOf(turns[..|turns| - 1], w) + if Bounded(w) && turns[|turns| - 1].start.None? then 1 else 0
  }

  function OutsideOf(turns: seq<Turn>, w: Window): nat {
    if turns == [] then 0
    else
      var t := turns[|turns| - 1];
      OutsideOf(turns[..|turns| - 1], w) + if t.start.Some? && !Inside(w, t.start.value) then 1 else 0
  }

  datatype Report = Raised | Report(kept: seq<Turn>, stats: Stats)

  /** `read_rollout` */
  function ReadRollout(events: seq<Event>, stats: Stats, w: Window): Report {
    var s := ReadLines(events, stats);
    if s.None? then Raised
    else
      var done := AtEnd(s.value);
      if Incomparable(w, done.turns) then Raised
      else Report(KeptOf(done.turns, w), done.stats.(undated := done.stats.undated + UndatedOf(done.turns, w)))
  }
}
