/** What reading a rollout keeps of it, over every log. */
module RolloutLaws {
  import opened Options
  import opened Rollout

  // ---- the log by itself ----

  function Last<T>(s: seq<T>): T
    requires s != []
  {
    s[|s| - 1]
  }

  function Front<T>(s: seq<T>): seq<T>
    requires s != []
  {
    s[..|s| - 1]
  }

  /** A turn is open after the log: its last start or end is a start. */
  predicate OpenAfter(events: seq<Event>) {
    events != []
    && (Last(events).TurnStarted? || (!Last(events).TurnEnded? && OpenAfter(Front(events))))
  }

  /** When the turns started, in order. */
  function Starts(events: seq<Event>): seq<Option<Time>> {
    if events == [] then []
    else Starts(Front(events)) + if Last(events).TurnStarted? then [Last(events).time] else []
  }

  /** The turns that a start or the end of the log found open. */
  function Interrupted(events: seq<Event>): nat {
    if events == [] then 0
    else Interrupted(Front(events)) + if Last(events).TurnStarted? && OpenAfter(Front(events)) then 1 else 0
  }

  /** The results that arrive within a turn. */
  function Results(events: seq<Event>): nat {
    if events == [] then 0
    else Results(Front(events)) + if Last(events).ToolResult? && OpenAfter(Front(events)) then 1 else 0
  }

  /** The calls made within a turn. */
  function CallsMade(events: seq<Event>): nat {
    if events == [] then 0
    else CallsMade(Front(events)) + if Last(events).ToolCall? && OpenAfter(Front(events)) then 1 else 0
  }

  // ---- the turns read ----

  function TurnsOf(s: State): seq<Turn> {
    s.turns + if s.cur.Some? then [s.cur.value] else []
  }

  function StartsOf(turns: seq<Turn>): seq<Option<Time>> {
    if turns == [] then [] else StartsOf(Front(turns)) + [Last(turns).start]
  }

  function OpenTurns(turns: seq<Turn>): nat {
    if turns == [] then 0 else OpenTurns(Front(turns)) + if Last(turns).status == Open then 1 else 0
  }

  datatype Kind = Waiting | Empty | WithSize

  function KindOf(slot: Slot): Kind {
    match slot
    case Unresolved => Waiting
    case NoContent => Empty
    case Sized(_) => WithSize
  }

  /** How many of the calls are of one kind. */
  function Tally(calls: seq<Call>, kind: Kind): nat {
    if calls == [] then 0 else Tally(Front(calls), kind) + if KindOf(Last(calls).slot) == kind then 1 else 0
  }

  function TallyAll(turns: seq<Turn>, kind: Kind): nat {
    if turns == [] then 0 else TallyAll(Front(turns), kind) + Tally(Last(turns).calls, kind)
  }

  lemma {:induction false} TallyNext(calls: seq<Call>, c: Call, kind: Kind)
    ensures Tally(calls + [c], kind) == Tally(calls, kind) + if KindOf(c.slot) == kind then 1 else 0
  {
  }

  lemma {:induction false} TallyUpdate(calls: seq<Call>, i: nat, c: Call, kind: Kind)
    requires i < |calls|
    ensures Tally(calls[i := c], kind) + (if KindOf(calls[i].slot) == kind then 1 else 0)
            == Tally(calls, kind) + if KindOf(c.slot) == kind then 1 else 0
    decreases |calls|
  {
    if i == |calls| - 1 {
      assert Front(calls[i := c]) == Front(calls);
    } else {
      assert Front(calls[i := c]) == Front(calls)[i := c];
      TallyUpdate(Front(calls), i, c, kind);
    }
  }

  lemma {:induction false} TurnNext(turns: seq<Turn>, t: Turn, kind: Kind)
    ensures TallyAll(turns + [t], kind) == TallyAll(turns, kind) + Tally(t.calls, kind)
    ensures StartsOf(turns + [t]) == StartsOf(turns) + [t.start]
    ensures OpenTurns(turns + [t]) == OpenTurns(turns) + if t.status == Open then 1 else 0
  {
  }

  // ---- pending calls ----

  /** Call i is the last in the turn under its id. */
  predicate Latest(calls: seq<Call>, i: nat) {
    i < |calls| && forall j :: i < j < |calls| ==> calls[j].callId != calls[i].callId
  }

  /** What waits for a result is exactly, for each id, the last call under it that has none. */
  predicate PendingExact(calls: seq<Call>, pending: map<string, nat>) {
    (forall id :: id in pending ==>
       Latest(calls, pending[id]) && calls[pending[id]].callId == id && calls[pending[id]].slot == Unresolved)
    && (forall i :: 0 <= i < |calls| && Latest(calls, i) && calls[i].slot == Unresolved ==>
          calls[i].callId in pending && pending[calls[i].callId] == i)
  }

  predicate PendingOk(s: State) {
    s.cur.Some? ==> PendingExact(s.cur.value.calls, s.pending)
  }

  lemma {:induction false} CallKeepsPending(calls: seq<Call>, pending: map<string, nat>, c: Call)
    requires PendingExact(calls, pending) && c.slot == Unresolved
    ensures PendingExact(calls + [c], pending[c.callId := |calls|])
  {
    var more, now := calls + [c], pending[c.callId := |calls|];
    forall i | 0 <= i < |more|
      ensures Latest(more, i) <==> i == |calls| || (Latest(calls, i) && calls[i].callId != c.callId)
    {
      if Latest(more, i) && i < |calls| {
        assert more[|calls|].callId != more[i].callId;
        forall j | i < j < |calls| ensures calls[j].callId != calls[i].callId { assert more[j] == calls[j]; }
      }
    }
  }

  lemma {:induction false} ResultKeepsPending(calls: seq<Call>, pending: map<string, nat>, id: string, slot: Slot)
    requires PendingExact(calls, pending) && id in pending && slot != Unresolved
    ensures var i := pending[id];
            i < |calls| && calls[i].slot == Unresolved
            && PendingExact(calls[i := calls[i].(slot := slot)], pending - {id})
  {
    var i := pending[id];
    assert Latest(calls, i);
    var now := calls[i := calls[i].(slot := slot)];
    forall j | 0 <= j < |now| ensures Latest(now, j) <==> Latest(calls, j) {
      assert forall k :: 0 <= k < |now| ==> now[k].callId == calls[k].callId;
    }
  }

  /** A line on which the reader fails in this state. */
  predicate Fails(s: State, e: Event) {
    e.Malformed? || (e.BadItem? && s.cur.Some?)
  }

  lemma {:induction false} StepKeepsPending(s: State, e: Event)
    requires PendingOk(s)
    ensures Step(s, e).Some? <==> !Fails(s, e)
    ensures Step(s, e).Some? ==> PendingOk(Step(s, e).value)
  {
    hide PendingExact;
    if s.cur.Some? && e.ToolCall? {
      CallKeepsPending(s.cur.value.calls, s.pending, Called(e));
    } else if s.cur.Some? && e.ToolResult? && e.callId in s.pending {
      ResultKeepsPending(s.cur.value.calls, s.pending, e.callId, Outcome(e));
    } else if e.TurnStarted? {
      NothingPending();
    }
  }

  lemma {:induction false} NothingPending()
    ensures PendingExact([], map[])
  {
  }

  /** Line i is malformed, or a bad item within a turn. */
  predicate FailsAt(events: seq<Event>, i: nat)
    requires i < |events|
  {
    events[i].Malformed? || (events[i].BadItem? && OpenAfter(events[..i]))
  }

  ghost predicate FailsSomewhere(events: seq<Event>) {
    exists i :: 0 <= i < |events| && FailsAt(events, i)
  }

  lemma {:induction false} FailsLater(front: seq<Event>, e: Event)
    ensures FailsSomewhere(front + [e]) <==> FailsSomewhere(front) || e.Malformed? || (e.BadItem? && OpenAfter(front))
  {
    var events := front + [e];
    assert events[..|front|] == front && events[|front|] == e;
    forall i | 0 <= i < |front| ensures FailsAt(events, i) <==> FailsAt(front, i) {
      assert events[..i] == front[..i];
    }
    if FailsSomewhere(front) {
      var i :| 0 <= i < |front| && FailsAt(front, i);
      assert FailsAt(events, i);
    }
    assert FailsAt(events, |front|) <==> e.Malformed? || (e.BadItem? && OpenAfter(front));
  }

  lemma {:induction false} StepOpens(s: State, e: Event, front: seq<Event>)
    requires Step(s, e).Some? && (s.cur.Some? <==> OpenAfter(front))
    ensures Step(s, e).value.cur.Some? <==> OpenAfter(front + [e])
  {
    assert Front(front + [e]) == front;
  }

  /** The reader fails exactly on a log with a malformed line or a bad item within a turn, and on nothing else: in
      particular no result ever meets a call that already has one. */
  lemma {:induction false} FailsExactlyThere(events: seq<Event>, stats: Stats)
    ensures ReadLines(events, stats).None? <==> FailsSomewhere(events)
    ensures var s := ReadLines(events, stats);
            s.Some? ==> PendingOk(s.value) && (s.value.cur.Some? <==> OpenAfter(events))
  {
    if events != [] {
      hide Step, PendingOk, FailsSomewhere, OpenAfter;
      var front, e := Front(events), Last(events);
      FailsExactlyThere(front, stats);
      assert events == front + [e];
      FailsLater(front, e);
      var before := ReadLines(front, stats);
      if before.Some? {
        StepKeepsPending(before.value, e);
        if Step(before.value, e).Some? { StepOpens(before.value, e, front); }
      }
    } else {
      NothingReadYet(stats);
    }
  }

  lemma {:induction false} NothingReadYet(stats: Stats)
    ensures !FailsSomewhere([]) && PendingOk(Begin(stats)) && !OpenAfter([])
  {
  }

  // ---- turns and results add up ----

  /** The state after a log, against the log itself. */
  predicate Balanced(events: seq<Event>, stats0: Stats, s: State) {
    (s.cur.Some? <==> OpenAfter(events))
    && StartsOf(TurnsOf(s)) == Starts(events)
    && s.stats.unfinished == stats0.unfinished + Interrupted(events)
    && OpenTurns(s.turns) == Interrupted(events)
    && (s.cur.Some? ==> s.cur.value.status == Open)
    && TallyAll(TurnsOf(s), Empty) == s.stats.noContent - stats0.noContent
    && TallyAll(TurnsOf(s), WithSize) + TallyAll(TurnsOf(s), Empty)
       + (s.stats.compactions - stats0.compactions) + (s.stats.orphans - stats0.orphans) == Results(events)
    && TallyAll(TurnsOf(s), WithSize) + TallyAll(TurnsOf(s), Empty) + TallyAll(TurnsOf(s), Waiting)
       == CallsMade(events)
  }

  lemma {:induction false} BeginBalanced(stats: Stats)
    ensures Balanced([], stats, Begin(stats))
  {
  }

  lemma {:induction false} Unroll(front: seq<Event>, e: Event)
    ensures var events := front + [e];
            OpenAfter(events) == (e.TurnStarted? || (!e.TurnEnded? && OpenAfter(front)))
            && Starts(events) == Starts(front) + (if e.TurnStarted? then [e.time] else [])
            && Interrupted(events) == Interrupted(front) + (if e.TurnStarted? && OpenAfter(front) then 1 else 0)
            && Results(events) == Results(front) + (if e.ToolResult? && OpenAfter(front) then 1 else 0)
            && CallsMade(events) == CallsMade(front) + if e.ToolCall? && OpenAfter(front) then 1 else 0
  {
  }

  /** A turn's measures, and what they say of the state's turns. */
  lemma {:induction false} Measured(s: State)
    requires s.cur.Some?
    ensures forall kind :: TallyAll(TurnsOf(s), kind) == TallyAll(s.turns, kind) + Tally(s.cur.value.calls, kind)
    ensures StartsOf(TurnsOf(s)) == StartsOf(s.turns) + [s.cur.value.start]
    ensures OpenTurns(TurnsOf(s)) == OpenTurns(s.turns) + if s.cur.value.status == Open then 1 else 0
  {
  }

  lemma {:induction false} MeasuredClosed(s: State)
    requires s.cur.None?
    ensures TurnsOf(s) == s.turns
  {
  }

  lemma {:induction false} StepBalances(front: seq<Event>, e: Event, stats0: Stats, s: State)
    requires Balanced(front, stats0, s) && PendingOk(s) && Step(s, e).Some?
    ensures Balanced(front + [e], stats0, Step(s, e).value)
  {
    hide TallyAll, Tally, StartsOf, OpenTurns, OpenAfter, Starts, Interrupted, Results, CallsMade, PendingOk, TurnsOf;
    Unroll(front, e);
    var s' := Step(s, e).value;
    if s.cur.None? {
      MeasuredClosed(s);
      if e.TurnStarted? { Measured(s'); NoCalls(); } else { MeasuredClosed(s'); }
    } else {
      var t := s.cur.value;
      Measured(s);
      if e.TurnStarted? {
        Measured(s');
        NoCalls();
        forall kind ensures TallyAll(s.turns + [t], kind) == TallyAll(s.turns, kind) + Tally(t.calls, kind) {
          TurnNext(s.turns, t, kind);
        }
        TurnNext(s.turns, t, Empty);
      } else if e.TurnEnded? {
        MeasuredClosed(s');
        var ended := t.(status := if e.failed then Failed else Completed);
        forall kind ensures TallyAll(s.turns + [ended], kind) == TallyAll(s.turns, kind) + Tally(t.calls, kind) {
          TurnNext(s.turns, ended, kind);
        }
        TurnNext(s.turns, ended, Empty);
      } else {
        Measured(s');
        if e.ToolCall? {
          forall kind { TallyNext(t.calls, Called(e), kind); }
        } else if e.ToolResult? && e.callId in s.pending {
          var i := s.pending[e.callId];
          forall kind { TallyUpdate(t.calls, i, t.calls[i].(slot := Outcome(e)), kind); }
        }
      }
    }
  }

  lemma {:induction false} NoCalls()
    ensures forall kind :: Tally([], kind) == 0
  {
  }

  /** A result goes to the last call of its turn under its id, when that call still waits; otherwise it changes no call
      and counts as a compaction or an orphan. */
  lemma {:induction false} ResultGoesToLatest(s: State, e: Event)
    requires PendingOk(s) && s.cur.Some? && e.ToolResult?
    ensures Step(s, e).Some? && Step(s, e).value.cur.Some?
    ensures var calls, after := s.cur.value.calls, Step(s, e).value;
            forall i :: 0 <= i < |calls| && Latest(calls, i) && calls[i].callId == e.callId ==>
              after.cur.value.calls == if calls[i].slot == Unresolved
                                       then calls[i := calls[i].(slot := Outcome(e))] else calls
    ensures var after := Step(s, e).value;
            after.stats.orphans + after.stats.compactions
            == s.stats.orphans + s.stats.compactions + if after.cur == s.cur then 1 else 0
  {
    var calls := s.cur.value.calls;
    if e.callId in s.pending {
      var i := s.pending[e.callId];
      assert Latest(calls, i);
      forall j | 0 <= j < |calls| && Latest(calls, j) && calls[j].callId == e.callId ensures j == i {
      }
      assert Step(s, e).value.cur.value.calls[i].slot != calls[i].slot;
    }
  }

  /** Every log that is read keeps its balance. */
  lemma {:induction false} LogBalances(events: seq<Event>, stats: Stats)
    requires ReadLines(events, stats).Some?
    ensures Balanced(events, stats, ReadLines(events, stats).value)
  {
    if events == [] {
      BeginBalanced(stats);
    } else {
      hide Balanced;
      var front := Front(events);
      LogBalances(front, stats);
      FailsExactlyThere(front, stats);
      StepBalances(front, Last(events), stats, ReadLines(front, stats).value);
      assert front + [Last(events)] == events;
    }
  }

  function Unfinished(events: seq<Event>): nat {
    Interrupted(events) + if OpenAfter(events) then 1 else 0
  }

  /** At the end of the file every started turn is there, in order; those left open are the ones counted unfinished,
      and every result of a turn sized a call, was recorded empty, or was counted as a compaction or an orphan. */
  lemma {:induction false} EndBalances(events: seq<Event>, stats: Stats)
    requires ReadLines(events, stats).Some?
    ensures var done := AtEnd(ReadLines(events, stats).value);
            StartsOf(done.turns) == Starts(events)
            && done.stats.unfinished == stats.unfinished + Unfinished(events)
            && OpenTurns(done.turns) == Unfinished(events)
            && TallyAll(done.turns, Empty) == done.stats.noContent - stats.noContent
            && TallyAll(done.turns, WithSize) + (done.stats.noContent - stats.noContent)
               + (done.stats.compactions - stats.compactions) + (done.stats.orphans - stats.orphans) == Results(events)
            && TallyAll(done.turns, WithSize) + TallyAll(done.turns, Empty) + TallyAll(done.turns, Waiting)
               == CallsMade(events)
  {
    hide TallyAll, Tally, StartsOf, OpenTurns, OpenAfter, Starts, Interrupted, Results, CallsMade, ReadLines;
    LogBalances(events, stats);
    var s := ReadLines(events, stats).value;
    if s.cur.Some? { Measured(s); } else { MeasuredClosed(s); }
  }

  // ---- the window ----

  /** Every turn is kept, undated or outside the window. */
  lemma {:induction false} WindowSorts(turns: seq<Turn>, w: Window)
    ensures |KeptOf(turns, w)| + UndatedOf(turns, w) + OutsideOf(turns, w) == |turns|
  {
    if turns != [] { WindowSorts(Front(turns), w); }
  }

  /** Kept turns all belong to the window, and a turn of the window is kept as often as it was read. */
  lemma {:induction false} WindowKeeps(turns: seq<Turn>, w: Window, t: Turn)
    ensures multiset(KeptOf(turns, w))[t] == if Kept(w, t) then multiset(turns)[t] else 0
  {
    if turns != [] {
      WindowKeeps(Front(turns), w, t);
      assert turns == Front(turns) + [Last(turns)];
    }
  }

  /** A turn of the log started at a time without an offset. */
  predicate SomeNoOffset(starts: seq<Option<Time>>) {
    exists i :: 0 <= i < |starts| && starts[i].Some? && !starts[i].value.offset
  }

  lemma {:induction false} StartsAt(turns: seq<Turn>, i: nat)
    requires i < |turns|
    ensures |StartsOf(turns)| == |turns| && StartsOf(turns)[i] == turns[i].start
    decreases |turns|
  {
    StartsCount(turns);
    if i < |turns| - 1 { StartsAt(Front(turns), i); } else { StartsCount(Front(turns)); }
  }

  lemma {:induction false} WhenIncomparable(w: Window, turns: seq<Turn>)
    ensures Incomparable(w, turns) <==> Bounded(w) && SomeNoOffset(StartsOf(turns))
  {
    hide StartsOf;
    StartsCount(turns);
    forall i | 0 <= i < |turns| ensures StartsOf(turns)[i] == turns[i].start { StartsAt(turns, i); }
    if SomeNoOffset(StartsOf(turns)) {
      var i :| 0 <= i < |StartsOf(turns)| && StartsOf(turns)[i].Some? && !StartsOf(turns)[i].value.offset;
      assert NoOffset(turns[i].start);
    }
    if exists i :: 0 <= i < |turns| && NoOffset(turns[i].start) {
      var i :| 0 <= i < |turns| && NoOffset(turns[i].start);
      assert NoOffset(StartsOf(turns)[i]);
    }
  }

  /** The report of one file: it fails exactly on a malformed line, on a bad item within a turn, or, when a window is
      given, on a turn whose start has no offset; otherwise its turns and those it leaves out are the turns started, and
      the counters balance whatever the window. */
  lemma {:induction false} ReportBalances(events: seq<Event>, stats: Stats, w: Window)
    ensures ReadRollout(events, stats, w).Raised?
            <==> FailsSomewhere(events) || ((w.since.Some? || w.until.Some?) && SomeNoOffset(Starts(events)))
    ensures ReadRollout(events, stats, w).Report? ==>
              var r, turns := ReadRollout(events, stats, w), AtEnd(ReadLines(events, stats).value).turns;
              |r.kept| + (r.stats.undated - stats.undated) + OutsideOf(turns, w) == |Starts(events)|
              && r.stats.unfinished == stats.unfinished + OpenTurns(turns)
              && TallyAll(turns, WithSize) + (r.stats.noContent - stats.noContent)
                 + (r.stats.compactions - stats.compactions) + (r.stats.orphans - stats.orphans) == Results(events)
  {
    FailsExactlyThere(events, stats);
    if ReadLines(events, stats).Some? {
      hide TallyAll, StartsOf, OpenTurns, Starts, Results, KeptOf, UndatedOf, OutsideOf, Incomparable, SomeNoOffset;
      EndBalances(events, stats);
      WhenIncomparable(w, AtEnd(ReadLines(events, stats).value).turns);
      UndatedUntouched(events, stats);
      var turns := AtEnd(ReadLines(events, stats).value).turns;
      WindowSorts(turns, w);
      StartsCount(turns);
    }
  }

  lemma {:induction false} StartsCount(turns: seq<Turn>)
    ensures |StartsOf(turns)| == |turns|
  {
    if turns != [] { StartsCount(Front(turns)); }
  }

  lemma {:induction false} UndatedUntouched(events: seq<Event>, stats: Stats)
    ensures var s := ReadLines(events, stats); s.Some? ==> s.value.stats.undated == stats.undated
  {
    if events != [] { UndatedUntouched(Front(events), stats); }
  }
}
