/** What a log says by itself, and that the turns read are exactly that: every turn is its own stretch of the log. */
module RolloutRecord {
  import opened Sequences
  import opened Options
  import opened Rollout
  import opened RolloutLaws

  // ---- the log by itself ----

  predicate Boundary(e: Event) {
    e.TurnStarted? || e.TurnEnded?
  }

  /** Where turns start. */
  ghost function StartsAt(events: seq<Event>): (r: seq<nat>)
    ensures forall k :: 0 <= k < |r| ==> r[k] < |events| && events[r[k]].TurnStarted?
  {
    if events == [] then []
    else StartsAt(Front(events)) + if Last(events).TurnStarted? then [|events| - 1] else []
  }

  /** The first start or end from i on, or the end of the log. */
  function EndOf(events: seq<Event>, i: nat): (hi: nat)
    requires i <= |events|
    ensures i <= hi <= |events|
    ensures forall j :: i <= j < hi ==> !Boundary(events[j])
    ensures hi < |events| ==> Boundary(events[hi])
    decreases |events| - i
  {
    if i == |events| || Boundary(events[i]) then i else EndOf(events, i + 1)
  }

  /** The calls strictly between lo and hi. */
  ghost function CallsIn(events: seq<Event>, lo: nat, hi: nat): (r: seq<nat>)
    requires hi <= |events|
    ensures forall m :: 0 <= m < |r| ==> lo < r[m] < hi && events[r[m]].ToolCall?
    ensures Ascending(r)
  {
    if hi <= lo + 1 then []
    else CallsIn(events, lo, hi - 1) + if events[hi - 1].ToolCall? then [hi - 1] else []
  }

  /** An event after which a call under the id no longer waits. */
  predicate Settles(e: Event, id: string) {
    Boundary(e) || (e.ToolCall? && e.callId == id) || (e.ToolResult? && e.callId == id)
  }

  /** Event r, before hi, is the result of the call at c. */
  predicate Answers(events: seq<Event>, c: nat, hi: nat, r: nat)
    requires hi <= |events| && c < |events| && events[c].ToolCall?
  {
    c < r < hi && events[r].ToolResult? && events[r].callId == events[c].callId
    && forall j :: c < j < r ==> !Settles(events[j], events[c].callId)
  }

  ghost predicate Answered(events: seq<Event>, c: nat, hi: nat)
    requires hi <= |events| && c < |events| && events[c].ToolCall?
  {
    exists r :: 0 <= r < hi && Answers(events, c, hi, r)
  }

  /** The slot says what the result said. */
  predicate SaysOf(e: Event, slot: Slot)
    requires e.ToolResult?
  {
    match slot
    case Unresolved => false
    case NoContent => e.content.None?
    case Sized(z) => e.content.Some? && z.length == e.content.value.length && z.excerpt == e.content.value.excerpt
                     && z.error == e.isError && z.timeout == (e.isError && e.content.value.timeoutWords)
  }

  /** A recorded call is the call of the log, with the result the log has for it before hi, if any. */
  ghost predicate Recorded(events: seq<Event>, c: nat, hi: nat, call: Call)
    requires hi <= |events| && c < |events| && events[c].ToolCall?
  {
    call.tool == events[c].tool && call.callId == events[c].callId && call.args == events[c].args
    && call.key == (events[c].tool, events[c].args.dump)
    && (call.slot == Unresolved <==> !Answered(events, c, hi))
    && forall r :: 0 <= r < hi && Answers(events, c, hi, r) ==> SaysOf(events[r], call.slot)
  }

  datatype Note = Message | Thought

  predicate IsNote(e: Event, note: Note) {
    match note
    case Message => e.AssistantMessage?
    case Thought => e.Reasoning?
  }

  /** Where the events strictly between lo and hi are notes of one kind. */
  ghost function Notes(events: seq<Event>, lo: nat, hi: nat, note: Note): set<nat>
    requires hi <= |events|
  {
    set j | lo < j < hi && IsNote(events[j], note)
  }

  ghost predicate CallsRecorded(events: seq<Event>, lo: nat, hi: nat, calls: seq<Call>)
    requires hi <= |events|
  {
    |calls| == |CallsIn(events, lo, hi)|
    && forall m :: 0 <= m < |calls| ==> Recorded(events, CallsIn(events, lo, hi)[m], hi, calls[m])
  }

  /** The turn is the stretch of the log from its start to hi. */
  ghost predicate TurnIs(events: seq<Event>, lo: nat, hi: nat, t: Turn)
    requires lo < hi <= |events| && events[lo].TurnStarted?
  {
    t.start == events[lo].time
    && t.texts == |Notes(events, lo, hi, Message)| && t.reasoning == |Notes(events, lo, hi, Thought)|
    && CallsRecorded(events, lo, hi, t.calls)
  }

  /** What the event that closed the turn says of it; nothing closed it when the log ended or another turn started. */
  predicate StatusIs(events: seq<Event>, hi: nat, status: Status)
    requires hi <= |events|
  {
    if hi < |events| && events[hi].TurnEnded? then status == if events[hi].failed then Failed else Completed
    else status == Open
  }

  ghost predicate IsRecord(events: seq<Event>, lo: nat, t: Turn)
    requires lo < |events| && events[lo].TurnStarted?
  {
    TurnIs(events, lo, EndOf(events, lo + 1), t) && StatusIs(events, EndOf(events, lo + 1), t.status)
  }

  /** The turns are the log's, in order. */
  ghost predicate AreRecords(events: seq<Event>, turns: seq<Turn>) {
    |turns| == |StartsAt(events)| && forall k :: 0 <= k < |turns| ==> IsRecord(events, StartsAt(events)[k], turns[k])
  }

  // ---- one more line ----

  lemma {:induction false} CallsInFront(front: seq<Event>, e: Event, lo: nat, hi: nat)
    requires hi <= |front|
    ensures CallsIn(front + [e], lo, hi) == CallsIn(front, lo, hi)
  {
    if hi > lo + 1 { CallsInFront(front, e, lo, hi - 1); }
  }

  lemma {:induction false} EndOfNext(front: seq<Event>, e: Event, i: nat)
    requires i <= |front|
    ensures EndOf(front + [e], i)
            == if EndOf(front, i) < |front| || Boundary(e) then EndOf(front, i) else |front| + 1
    decreases |front| - i
  {
    if i < |front| && !Boundary(front[i]) { EndOfNext(front, e, i + 1); }
  }

  lemma {:induction false} AnswersFront(front: seq<Event>, e: Event, c: nat, hi: nat, r: nat)
    requires hi <= |front| && c < |front| && front[c].ToolCall?
    ensures Answers(front + [e], c, hi, r) <==> Answers(front, c, hi, r)
  {
    var events := front + [e];
    if c < r < hi {
      forall j | c < j <= r ensures events[j] == front[j] {
      }
    }
  }

  lemma {:induction false} RecordedFront(front: seq<Event>, e: Event, c: nat, hi: nat, call: Call)
    requires hi <= |front| && c < |front| && front[c].ToolCall?
    ensures Recorded(front + [e], c, hi, call) <==> Recorded(front, c, hi, call)
  {
    hide Answers, SaysOf;
    var events := front + [e];
    forall r: nat ensures Answers(events, c, hi, r) <==> Answers(front, c, hi, r) { AnswersFront(front, e, c, hi, r); }
    assert Answered(events, c, hi) <==> Answered(front, c, hi);
    forall r | 0 <= r < hi ensures events[r] == front[r] {
    }
  }

  /** A stretch of the log does not change when the log goes on. */
  lemma {:induction false} TurnIsFront(front: seq<Event>, e: Event, lo: nat, hi: nat, t: Turn)
    requires lo < hi <= |front| && front[lo].TurnStarted?
    ensures TurnIs(front + [e], lo, hi, t) <==> TurnIs(front, lo, hi, t)
  {
    hide Recorded;
    var events := front + [e];
    CallsInFront(front, e, lo, hi);
    assert Notes(events, lo, hi, Message) == Notes(front, lo, hi, Message);
    assert Notes(events, lo, hi, Thought) == Notes(front, lo, hi, Thought);
    var at := CallsIn(front, lo, hi);
    forall m | 0 <= m < |at| && m < |t.calls|
      ensures Recorded(events, at[m], hi, t.calls[m]) <==> Recorded(front, at[m], hi, t.calls[m])
    {
      RecordedFront(front, e, at[m], hi, t.calls[m]);
    }
  }

  // ---- the turn being filled ----

  /** The call at c waits just before hi. */
  predicate Awaits(events: seq<Event>, c: nat, hi: nat)
    requires hi <= |events| && c < |events| && events[c].ToolCall?
  {
    c < hi && forall j :: c < j < hi ==> !Settles(events[j], events[c].callId)
  }

  /** Which recorded calls wait is what the pending map says. */
  lemma {:induction false} LatestAwaits(events: seq<Event>, lo: nat, hi: nat, calls: seq<Call>, m: nat)
    requires lo < hi <= |events| && (forall j :: lo < j < hi ==> !Boundary(events[j]))
    requires CallsRecorded(events, lo, hi, calls) && m < |calls|
    ensures Awaits(events, CallsIn(events, lo, hi)[m], hi) <==> Latest(calls, m) && calls[m].slot == Unresolved
  {
    var at := CallsIn(events, lo, hi);
    var c, id := at[m], calls[m].callId;
    assert Recorded(events, c, hi, calls[m]);
    if Awaits(events, c, hi) {
      forall j | m < j < |calls| ensures calls[j].callId != id {
        assert Recorded(events, at[j], hi, calls[j]) && at[m] < at[j];
      }
    }
    if Latest(calls, m) && calls[m].slot == Unresolved {
      forall j | c < j < hi ensures !Settles(events[j], id) {
        if events[j].ToolCall? && events[j].callId == id {
          var n := CallsPlace(events, lo, hi, j);
          assert Recorded(events, at[n], hi, calls[n]);
          OrderOfPlaces(at, m, n);
          assert false;
        }
        if events[j].ToolResult? && events[j].callId == id { NoResultBefore(events, lo, hi, calls, m, j); }
      }
    }
  }

  lemma {:induction false} OrderOfPlaces(at: seq<nat>, m: nat, n: nat)
    requires Ascending(at) && m < |at| && n < |at| && at[m] < at[n]
    ensures m < n
  {
  }

  lemma {:induction false} CallsGrow(events: seq<Event>, lo: nat, hi: nat)
    requires lo + 1 < hi <= |events|
    ensures CallsIn(events, lo, hi - 1) <= CallsIn(events, lo, hi)
  {
    hide Ascending;
  }

  lemma {:induction false} CallsPlace(events: seq<Event>, lo: nat, hi: nat, j: nat) returns (n: nat)
    requires hi <= |events| && lo < j < hi && events[j].ToolCall?
    ensures n < |CallsIn(events, lo, hi)| && CallsIn(events, lo, hi)[n] == j
  {
    hide Ascending;
    var before := CallsIn(events, lo, hi - 1);
    if j == hi - 1 {
      assert CallsIn(events, lo, hi) == before + [j];
      n := |before|;
    } else {
      n := CallsPlace(events, lo, hi - 1, j);
      CallsGrow(events, lo, hi);
    }
  }

  /** A latest call without its result has none up to hi. */
  lemma {:induction false} NoResultBefore(events: seq<Event>, lo: nat, hi: nat, calls: seq<Call>, m: nat, j: nat)
    requires lo < hi <= |events| && (forall i :: lo < i < hi ==> !Boundary(events[i]))
    requires CallsRecorded(events, lo, hi, calls) && m < |calls| && Latest(calls, m) && calls[m].slot == Unresolved
    requires CallsIn(events, lo, hi)[m] < j < hi && events[j].ToolResult?
    ensures events[j].callId != calls[m].callId
    decreases j
  {
    var at := CallsIn(events, lo, hi);
    var c, id := at[m], calls[m].callId;
    assert Recorded(events, c, hi, calls[m]);
    if events[j].callId == id {
      forall i | c < i < j ensures !Settles(events[i], id) {
        if events[i].ToolResult? { NoResultBefore(events, lo, hi, calls, m, i); }
        if events[i].ToolCall? && events[i].callId == id {
          var n := CallsPlace(events, lo, hi, i);
          assert Recorded(events, at[n], hi, calls[n]);
          OrderOfPlaces(at, m, n);
          assert false;
        }
      }
      assert Answers(events, c, hi, j);
      assert false;
    }
  }

  /** A call's record when the stretch grows by one line: only a result that the call awaits changes it. */
  lemma {:induction false} RecordedNext(front: seq<Event>, e: Event, c: nat, call: Call, call': Call)
    requires c < |front| && front[c].ToolCall? && Recorded(front, c, |front|, call)
    requires var mine := e.ToolResult? && e.callId == call.callId && Awaits(front, c, |front|);
             call' == if mine then call.(slot := Outcome(e)) else call
    ensures Recorded(front + [e], c, |front| + 1, call')
  {
    hide Awaits, Answers, Recorded, SaysOf, Outcome;
    var n, events := |front|, front + [e];
    var hi := |events|;
    assert events[c] == front[c];
    RecordedFront(front, e, c, n, call);
    var mine := e.ToolResult? && e.callId == call.callId && Awaits(front, c, n);
    RecordedSays(front, c, n, call);
    forall r: nat | r < hi ensures Answers(events, c, hi, r) <==> if r == n then mine else Answers(front, c, n, r) {
      AnswersNext(front, e, c, r);
    }
    OutcomeSays(e);
    assert events[n] == e;
    if mine {
      AwaitsAlone(front, c, n);
      assert Answers(events, c, hi, n);
    } else {
      forall r: nat | r < n ensures events[r] == front[r] {
      }
      forall r: nat | r < n && Answers(front, c, n, r) ensures Answers(events, c, hi, r) {
      }
    }
    SaysRecorded(events, c, hi, call');
  }

  lemma {:induction false} OutcomeSays(e: Event)
    ensures e.ToolResult? ==> SaysOf(e, Outcome(e)) && Outcome(e) != Unresolved
  {
  }

  lemma {:induction false} AwaitsAlone(events: seq<Event>, c: nat, hi: nat)
    requires hi <= |events| && c < |events| && events[c].ToolCall? && Awaits(events, c, hi)
    ensures forall r: nat :: !Answers(events, c, hi, r)
  {
  }

  lemma {:induction false} AnswersNext(front: seq<Event>, e: Event, c: nat, r: nat)
    requires c < |front| && front[c].ToolCall? && r <= |front|
    ensures Answers(front + [e], c, |front| + 1, r)
            <==> if r == |front| then e.ToolResult? && e.callId == front[c].callId && Awaits(front, c, |front|)
                 else Answers(front, c, |front|, r)
  {
    var events := front + [e];
    forall j | 0 <= j < |front| ensures events[j] == front[j] {
    }
  }

  lemma {:induction false} RecordedSays(events: seq<Event>, c: nat, hi: nat, call: Call)
    requires hi <= |events| && c < |events| && events[c].ToolCall? && Recorded(events, c, hi, call)
    ensures call.tool == events[c].tool && call.callId == events[c].callId && call.args == events[c].args
    ensures call.key == (events[c].tool, events[c].args.dump)
    ensures call.slot == Unresolved <==> forall r: nat :: r < hi ==> !Answers(events, c, hi, r)
    ensures forall r: nat :: r < hi && Answers(events, c, hi, r) ==> SaysOf(events[r], call.slot)
  {
  }

  lemma {:induction false} SaysRecorded(events: seq<Event>, c: nat, hi: nat, call: Call)
    requires hi <= |events| && c < |events| && events[c].ToolCall?
    requires call.tool == events[c].tool && call.callId == events[c].callId && call.args == events[c].args
    requires call.key == (events[c].tool, events[c].args.dump)
    requires call.slot == Unresolved <==> forall r: nat :: r < hi ==> !Answers(events, c, hi, r)
    requires forall r: nat :: r < hi && Answers(events, c, hi, r) ==> SaysOf(events[r], call.slot)
    ensures Recorded(events, c, hi, call)
  {
  }

  /** No turn starts or ends strictly between lo and hi. */
  predicate Unbroken(events: seq<Event>, lo: nat, hi: nat)
    requires hi <= |events|
  {
    forall j :: lo < j < hi ==> !Boundary(events[j])
  }

  lemma {:induction false} CallsInNext(front: seq<Event>, e: Event, lo: nat)
    requires lo < |front|
    ensures CallsIn(front + [e], lo, |front| + 1)
            == CallsIn(front, lo, |front|) + if e.ToolCall? then [|front|] else []
  {
    hide Ascending;
    CallsInFront(front, e, lo, |front|);
    if |front| + 1 <= lo + 1 { assert false; }
  }

  /** One recorded call when the stretch grows: the result that it waits for, and nothing else, is written to it. */
  lemma {:induction false} CallNext(front: seq<Event>, e: Event, lo: nat, calls: seq<Call>, pending: map<string, nat>,
                                    m: nat)
    requires lo < |front| && Unbroken(front, lo, |front|) && CallsRecorded(front, lo, |front|, calls)
    requires PendingExact(calls, pending) && m < |calls|
    ensures var mine := e.ToolResult? && e.callId in pending && pending[e.callId] == m;
            Recorded(front + [e], CallsIn(front, lo, |front|)[m], |front| + 1,
                     if mine then calls[m].(slot := Outcome(e)) else calls[m])
  {
    hide Recorded, Awaits, Outcome, Ascending, PendingExact, Latest, Unbroken;
    var n, c := |front|, CallsIn(front, lo, |front|)[m];
    WaitsHere(front, lo, calls, pending, m);
    var mine := e.ToolResult? && e.callId in pending && pending[e.callId] == m;
    PendingIsLatest(calls, pending, m);
    RecordedNext(front, e, c, calls[m], if mine then calls[m].(slot := Outcome(e)) else calls[m]);
  }

  lemma {:induction false} WaitsHere(events: seq<Event>, lo: nat, calls: seq<Call>, pending: map<string, nat>, m: nat)
    requires lo < |events| && Unbroken(events, lo, |events|) && CallsRecorded(events, lo, |events|, calls)
    requires PendingExact(calls, pending) && m < |calls|
    ensures var c, id := CallsIn(events, lo, |events|)[m], calls[m].callId;
            id == events[c].callId && Recorded(events, c, |events|, calls[m])
            && (Awaits(events, c, |events|) <==> id in pending && pending[id] == m)
  {
    hide Recorded, Awaits, Ascending, PendingExact, Latest;
    LatestAwaits(events, lo, |events|, calls, m);
    CallIdHere(events, CallsIn(events, lo, |events|)[m], |events|, calls[m]);
    PendingIsLatest(calls, pending, m);
  }

  lemma {:induction false} CallsNext(front: seq<Event>, e: Event, lo: nat, calls: seq<Call>, pending: map<string, nat>,
                                     calls': seq<Call>)
    requires lo < |front| && Unbroken(front, lo, |front|) && CallsRecorded(front, lo, |front|, calls)
    requires PendingExact(calls, pending)
    requires if e.ToolCall? then calls' == calls + [Called(e)]
             else if e.ToolResult? && e.callId in pending && pending[e.callId] < |calls|
             then calls' == calls[pending[e.callId] := calls[pending[e.callId]].(slot := Outcome(e))]
             else calls' == calls
    ensures CallsRecorded(front + [e], lo, |front| + 1, calls')
  {
    hide Recorded, Outcome, Ascending, PendingExact, Unbroken, CallsIn;
    var n, at := |front|, CallsIn(front, lo, |front|);
    CallsInNext(front, e, lo);
    forall m | 0 <= m < |calls| ensures Recorded(front + [e], at[m], n + 1, calls'[m]) {
      CallNext(front, e, lo, calls, pending, m);
    }
    if e.ToolCall? { NewCall(front, e); }
  }

  lemma {:induction false} CallIdHere(events: seq<Event>, c: nat, hi: nat, call: Call)
    requires hi <= |events| && c < |events| && events[c].ToolCall? && Recorded(events, c, hi, call)
    ensures call.callId == events[c].callId
  {
  }

  lemma {:induction false} PendingIsLatest(calls: seq<Call>, pending: map<string, nat>, m: nat)
    requires PendingExact(calls, pending) && m < |calls|
    ensures Latest(calls, m) && calls[m].slot == Unresolved
            <==> calls[m].callId in pending && pending[calls[m].callId] == m
    ensures forall id :: id in pending ==> pending[id] < |calls| && calls[pending[id]].callId == id
  {
  }

  lemma {:induction false} NewCall(front: seq<Event>, e: Event)
    requires e.ToolCall?
    ensures Recorded(front + [e], |front|, |front| + 1, Called(e))
  {
  }

  lemma {:induction false} NotesNext(front: seq<Event>, e: Event, lo: nat, note: Note)
    requires lo < |front|
    ensures |Notes(front + [e], lo, |front| + 1, note)|
            == |Notes(front, lo, |front|, note)| + if IsNote(e, note) then 1 else 0
  {
    hide IsNote;
    var n, events := |front|, front + [e];
    if IsNote(e, note) {
      assert Notes(events, lo, n + 1, note) == Notes(front, lo, n, note) + {n};
    } else {
      assert Notes(events, lo, n + 1, note) == Notes(front, lo, n, note);
    }
  }

  /** The turn being filled stays the log's, line by line. */
  lemma {:induction false} FillStep(front: seq<Event>, e: Event, lo: nat, s: State)
    requires lo < |front| && front[lo].TurnStarted? && Unbroken(front, lo, |front|) && !Boundary(e)
    requires s.cur.Some? && TurnIs(front, lo, |front|, s.cur.value) && PendingOk(s) && Step(s, e).Some?
    ensures Step(s, e).value.cur.Some? && Step(s, e).value.turns == s.turns
    ensures TurnIs(front + [e], lo, |front| + 1, Step(s, e).value.cur.value)
    ensures Step(s, e).value.cur.value.status == s.cur.value.status
  {
    hide CallsRecorded, Notes, PendingExact, Outcome;
    var t, t' := s.cur.value, Step(s, e).value.cur.value;
    NotesNext(front, e, lo, Message);
    NotesNext(front, e, lo, Thought);
    CallsNext(front, e, lo, t.calls, s.pending, t'.calls);
  }

  lemma {:induction false} FreshIs(front: seq<Event>, e: Event)
    requires e.TurnStarted?
    ensures TurnIs(front + [e], |front|, |front| + 1, Fresh(e.time))
  {
    var n, events := |front|, front + [e];
    assert Notes(events, n, n + 1, Message) == {} && Notes(events, n, n + 1, Thought) == {};
  }

  // ---- every log ----

  /** The first turns of the log, all closed. */
  ghost predicate ClosedHeld(events: seq<Event>, turns: seq<Turn>) {
    |turns| <= |StartsAt(events)|
    && forall k :: 0 <= k < |turns| ==>
         EndOf(events, StartsAt(events)[k] + 1) < |events| && IsRecord(events, StartsAt(events)[k], turns[k])
  }

  /** The turn the log leaves open. */
  ghost predicate OpenHeld(events: seq<Event>, lo: nat, t: Turn)
    requires lo < |events| && events[lo].TurnStarted?
  {
    EndOf(events, lo + 1) == |events| && TurnIs(events, lo, |events|, t) && t.status == Open
  }

  /** What the reader holds after a log: the turns that ended, and the one being filled. */
  ghost predicate Holds(events: seq<Event>, s: State) {
    |StartsAt(events)| == |s.turns| + (if s.cur.Some? then 1 else 0)
    && ClosedHeld(events, s.turns)
    && (s.cur.Some? ==> OpenHeld(events, StartsAt(events)[|s.turns|], s.cur.value))
  }

  lemma {:induction false} ClosedStays(front: seq<Event>, e: Event, lo: nat, t: Turn)
    requires lo < |front| && front[lo].TurnStarted?
    requires EndOf(front, lo + 1) < |front| && IsRecord(front, lo, t)
    ensures EndOf(front + [e], lo + 1) < |front| && IsRecord(front + [e], lo, t)
  {
    hide TurnIs;
    EndOfNext(front, e, lo + 1);
    TurnIsFront(front, e, lo, EndOf(front, lo + 1), t);
  }

  lemma {:induction false} StartsNext(front: seq<Event>, e: Event)
    ensures StartsAt(front + [e]) == StartsAt(front) + if e.TurnStarted? then [|front|] else []
  {
    assert Front(front + [e]) == front;
  }

  /** The turn being filled is closed by a start or an end. */
  lemma {:induction false} Closes(front: seq<Event>, e: Event, lo: nat, t: Turn)
    requires lo < |front| && front[lo].TurnStarted? && Boundary(e)
    requires EndOf(front, lo + 1) == |front| && TurnIs(front, lo, |front|, t) && t.status == Open
    ensures EndOf(front + [e], lo + 1) == |front|
    ensures IsRecord(front + [e], lo,
                     t.(status := if e.TurnStarted? then Open else if e.failed then Failed else Completed))
  {
    hide CallsRecorded, Notes;
    EndOfNext(front, e, lo + 1);
    TurnIsFront(front, e, lo, |front|, t);
  }

  lemma {:induction false} ClosedStay(front: seq<Event>, e: Event, turns: seq<Turn>)
    requires ClosedHeld(front, turns)
    ensures ClosedHeld(front + [e], turns)
  {
    hide TurnIs, IsRecord, EndOf, StartsAt;
    var events, starts := front + [e], StartsAt(front);
    StartsNext(front, e);
    forall k | 0 <= k < |turns|
      ensures EndOf(events, starts[k] + 1) < |events| && IsRecord(events, starts[k], turns[k])
    {
      ClosedStays(front, e, starts[k], turns[k]);
    }
  }

  lemma {:induction false} OneMoreClosed(events: seq<Event>, turns: seq<Turn>, t: Turn)
    requires ClosedHeld(events, turns) && |turns| < |StartsAt(events)|
    requires var lo := StartsAt(events)[|turns|]; EndOf(events, lo + 1) < |events| && IsRecord(events, lo, t)
    ensures ClosedHeld(events, turns + [t])
  {
    hide IsRecord, EndOf, StartsAt;
  }

  /** A start or an end closes the open turn. */
  lemma {:induction false} LineCloses(front: seq<Event>, e: Event, s: State)
    requires Holds(front, s) && s.cur.Some? && Boundary(e) && Step(s, e).Some?
    ensures ClosedHeld(front + [e], Step(s, e).value.turns) && |Step(s, e).value.turns| == |s.turns| + 1
  {
    hide TurnIs, IsRecord, EndOf, StartsAt, ClosedHeld;
    var lo := StartsAt(front)[|s.turns|];
    StartsNext(front, e);
    ClosedStay(front, e, s.turns);
    Closes(front, e, lo, s.cur.value);
    OneMoreClosed(front + [e], s.turns,
                  s.cur.value.(status := if e.TurnStarted? then Open else if e.failed then Failed else Completed));
  }

  lemma {:induction false} LineFills(front: seq<Event>, e: Event, s: State)
    requires Holds(front, s) && s.cur.Some? && !Boundary(e) && PendingOk(s) && Step(s, e).Some?
    ensures Holds(front + [e], Step(s, e).value)
  {
    hide TurnIs, EndOf, StartsAt, ClosedHeld, PendingOk, Step;
    var lo := StartsAt(front)[|s.turns|];
    StartsNext(front, e);
    ClosedStay(front, e, s.turns);
    OpenSince(front, lo);
    FillStep(front, e, lo, s);
    EndOfNext(front, e, lo + 1);
  }

  lemma {:induction false} LineStarts(front: seq<Event>, e: Event)
    requires e.TurnStarted?
    ensures OpenHeld(front + [e], |front|, Fresh(e.time))
  {
    hide TurnIs;
    FreshIs(front, e);
    EndOfEnd(front + [e]);
  }

  lemma {:induction false} LineHolds(front: seq<Event>, e: Event, s: State)
    requires Holds(front, s) && PendingOk(s) && Step(s, e).Some?
    ensures Holds(front + [e], Step(s, e).value)
  {
    hide StartsAt, ClosedHeld, OpenHeld, PendingOk, InTurn;
    if s.cur.Some? && !Boundary(e) {
      LineFills(front, e, s);
    } else {
      StartsNext(front, e);
      if s.cur.Some? { LineCloses(front, e, s); } else { ClosedStay(front, e, s.turns); }
      if e.TurnStarted? { LineStarts(front, e); }
    }
  }

  lemma {:induction false} OpenSince(events: seq<Event>, lo: nat)
    requires lo < |events| && EndOf(events, lo + 1) == |events|
    ensures Unbroken(events, lo, |events|)
  {
  }

  lemma {:induction false} EndOfEnd(events: seq<Event>)
    ensures EndOf(events, |events|) == |events|
  {
  }

  lemma {:induction false} LogHolds(events: seq<Event>, stats: Stats)
    requires ReadLines(events, stats).Some?
    ensures Holds(events, ReadLines(events, stats).value)
  {
    if events == [] {
      NothingHeld(stats);
    } else {
      hide Holds;
      var front := Front(events);
      LogHolds(front, stats);
      FailsExactlyThere(front, stats);
      LineHolds(front, Last(events), ReadLines(front, stats).value);
      assert front + [Last(events)] == events;
    }
  }

  lemma {:induction false} NothingHeld(stats: Stats)
    ensures Holds([], Begin(stats))
  {
  }

  /** The turns read of a log are the log's own, one for each start and in order: its time, its messages and thoughts,
      its calls in order with what their results said, and how it was closed. */
  lemma {:induction false} TurnsAreTheLog(events: seq<Event>, stats: Stats)
    requires ReadLines(events, stats).Some?
    ensures AreRecords(events, AtEnd(ReadLines(events, stats).value).turns)
  {
    hide TurnIs, EndOf, StartsAt;
    LogHolds(events, stats);
  }

  // ---- the counters ----

  /** A turn is open at event i. */
  ghost predicate InsideTurn(events: seq<Event>, i: nat)
    requires i <= |events|
  {
    exists s :: 0 <= s < i && events[s].TurnStarted? && Unbroken(events, s, i)
  }

  /** A call under the id waits just before event i. */
  ghost predicate CallWaits(events: seq<Event>, i: nat, id: string)
    requires i <= |events|
  {
    exists c :: 0 <= c < i && events[c].ToolCall? && events[c].callId == id && Awaits(events, c, i)
  }

  datatype Count = BadLine | EmptyResult | CompactionResult | OrphanResult

  /** What event i adds to: a line that is no JSON; and within a turn a result without content for a waiting call, or
      one that no call waits for, a compaction's by its id. */
  ghost predicate CountsAs(events: seq<Event>, i: nat, count: Count)
    requires i < |events|
  {
    var e := events[i];
    match count
    case BadLine => e.NotJson?
    case EmptyResult => e.ToolResult? && InsideTurn(events, i) && CallWaits(events, i, e.callId) && e.content.None?
    case CompactionResult =>
      e.ToolResult? && InsideTurn(events, i) && !CallWaits(events, i, e.callId) && "compact-" <= e.callId
    case OrphanResult =>
      e.ToolResult? && InsideTurn(events, i) && !CallWaits(events, i, e.callId) && !("compact-" <= e.callId)
  }

  ghost function Counted(events: seq<Event>, count: Count): set<nat> {
    set i | 0 <= i < |events| && CountsAs(events, i, count)
  }

  function Counter(stats: Stats, count: Count): nat {
    match count
    case BadLine => stats.badLines
    case EmptyResult => stats.noContent
    case CompactionResult => stats.compactions
    case OrphanResult => stats.orphans
  }

  lemma {:induction false} InsideFront(front: seq<Event>, e: Event, i: nat)
    requires i <= |front|
    ensures InsideTurn(front + [e], i) <==> InsideTurn(front, i)
  {
    var events := front + [e];
    forall s | 0 <= s < i ensures Unbroken(events, s, i) <==> Unbroken(front, s, i) {
      forall j | s < j < i ensures events[j] == front[j] {
      }
    }
    if InsideTurn(front, i) {
      var s :| 0 <= s < i && front[s].TurnStarted? && Unbroken(front, s, i);
      assert events[s] == front[s];
    }
  }

  lemma {:induction false} WaitsFront(front: seq<Event>, e: Event, i: nat, id: string)
    requires i <= |front|
    ensures CallWaits(front + [e], i, id) <==> CallWaits(front, i, id)
  {
    var events := front + [e];
    forall c | 0 <= c < i && front[c].ToolCall? ensures Awaits(events, c, i) <==> Awaits(front, c, i) {
      forall j | c <= j < i ensures events[j] == front[j] {
      }
    }
    if CallWaits(front, i, id) {
      var c :| 0 <= c < i && front[c].ToolCall? && front[c].callId == id && Awaits(front, c, i);
      assert events[c] == front[c];
    }
  }

  lemma {:induction false} CountsFront(front: seq<Event>, e: Event, i: nat, count: Count)
    requires i < |front|
    ensures CountsAs(front + [e], i, count) <==> CountsAs(front, i, count)
  {
    hide InsideTurn, CallWaits;
    InsideFront(front, e, i);
    if front[i].ToolResult? { WaitsFront(front, e, i, front[i].callId); }
  }

  lemma {:induction false} CountedNext(front: seq<Event>, e: Event, count: Count)
    ensures |Counted(front + [e], count)|
            == |Counted(front, count)| + if CountsAs(front + [e], |front|, count) then 1 else 0
  {
    hide CountsAs;
    var events, n := front + [e], |front|;
    forall i: nat | i < n ensures CountsAs(events, i, count) <==> CountsAs(front, i, count) {
      CountsFront(front, e, i, count);
    }
    if CountsAs(events, n, count) {
      assert Counted(events, count) == Counted(front, count) + {n};
    } else {
      assert Counted(events, count) == Counted(front, count);
    }
  }

  lemma {:induction false} OpenIsInside(events: seq<Event>)
    ensures OpenAfter(events) <==> InsideTurn(events, |events|)
  {
    if events != [] {
      var front, e, n := Front(events), Last(events), |events| - 1;
      OpenIsInside(front);
      assert events == front + [e];
      InsideFront(front, e, n);
      if e.TurnStarted? { assert Unbroken(events, n, n + 1); }
      if InsideTurn(events, n + 1) && !e.TurnStarted? {
        var s :| 0 <= s < n + 1 && events[s].TurnStarted? && Unbroken(events, s, n + 1);
        assert s < n && Unbroken(events, s, n);
      }
      if InsideTurn(events, n) && !Boundary(e) {
        var s :| 0 <= s < n && events[s].TurnStarted? && Unbroken(events, s, n);
        assert Unbroken(events, s, n + 1);
      }
    }
  }

  /** In an open turn the pending map holds exactly the ids under which a call waits. */
  lemma {:induction false} PendingIsWaiting(events: seq<Event>, s: State, id: string)
    requires Holds(events, s) && PendingOk(s) && s.cur.Some?
    ensures id in s.pending <==> CallWaits(events, |events|, id)
  {
    hide TurnIs, EndOf, StartsAt, ClosedHeld, Awaits, PendingExact, Recorded, Ascending;
    var lo, n, calls := StartsAt(events)[|s.turns|], |events|, s.cur.value.calls;
    OpenSince(events, lo);
    TurnCalls(events, lo, n, s.cur.value);
    hide CallsRecorded;
    if id in s.pending {
      PendingInRange(calls, s.pending, id);
      WaitingPlace(events, lo, calls, s.pending, id);
    }
    if CallWaits(events, n, id) {
      var c :| 0 <= c < n && events[c].ToolCall? && events[c].callId == id && Awaits(events, c, n);
      AwaitedInTurn(events, lo, c);
      WaitingIsPending(events, lo, calls, s.pending, c);
    }
  }

  lemma {:induction false} TurnCalls(events: seq<Event>, lo: nat, hi: nat, t: Turn)
    requires lo < hi <= |events| && events[lo].TurnStarted? && TurnIs(events, lo, hi, t)
    ensures CallsRecorded(events, lo, hi, t.calls)
  {
    hide CallsRecorded;
  }

  lemma {:induction false} PendingInRange(calls: seq<Call>, pending: map<string, nat>, id: string)
    requires PendingExact(calls, pending) && id in pending
    ensures pending[id] < |calls| && calls[pending[id]].callId == id
  {
  }

  lemma {:induction false} WaitingPlace(events: seq<Event>, lo: nat, calls: seq<Call>, pending: map<string, nat>,
                                        id: string)
    requires lo < |events| && Unbroken(events, lo, |events|) && CallsRecorded(events, lo, |events|, calls)
    requires PendingExact(calls, pending) && id in pending && pending[id] < |calls|
    ensures CallWaits(events, |events|, id)
  {
    hide Recorded, Awaits, PendingExact, Unbroken;
    PendingInRange(calls, pending, id);
    WaitsHere(events, lo, calls, pending, pending[id]);
    assert Awaits(events, CallsIn(events, lo, |events|)[pending[id]], |events|);
  }

  /** A start settles every call, so a waiting call is one of the open turn. */
  lemma {:induction false} AwaitedInTurn(events: seq<Event>, lo: nat, c: nat)
    requires lo < |events| && events[lo].TurnStarted? && c < |events| && events[c].ToolCall?
    requires Awaits(events, c, |events|)
    ensures lo < c
  {
    assert c < lo ==> Settles(events[lo], events[c].callId);
  }

  lemma {:induction false} WaitingIsPending(events: seq<Event>, lo: nat, calls: seq<Call>, pending: map<string, nat>,
                                            c: nat)
    requires lo < |events| && Unbroken(events, lo, |events|) && CallsRecorded(events, lo, |events|, calls)
    requires PendingExact(calls, pending)
    requires lo < c < |events| && events[c].ToolCall? && Awaits(events, c, |events|)
    ensures events[c].callId in pending
  {
    hide Recorded, Awaits, PendingExact, Unbroken;
    var m := CallsPlace(events, lo, |events|, c);
    WaitsHere(events, lo, calls, pending, m);
  }

  /** One line raises a counter exactly when it counts as such. */
  lemma {:induction false} LineCounts(front: seq<Event>, e: Event, s: State, count: Count)
    requires Holds(front, s) && PendingOk(s) && Step(s, e).Some? && (s.cur.Some? <==> OpenAfter(front))
    ensures Counter(Step(s, e).value.stats, count)
            == Counter(s.stats, count) + if CountsAs(front + [e], |front|, count) then 1 else 0
  {
    hide Holds, PendingOk, InsideTurn, CallWaits, OpenAfter;
    OpenIsInside(front);
    InsideFront(front, e, |front|);
    if e.ToolResult? {
      WaitsFront(front, e, |front|, e.callId);
      if s.cur.Some? { PendingIsWaiting(front, s, e.callId); }
    }
  }

  /** Over every log each counter is raised by exactly the events that the log itself says count. */
  lemma {:induction false} CountersAreTheLog(events: seq<Event>, stats: Stats, count: Count)
    requires ReadLines(events, stats).Some?
    ensures Counter(ReadLines(events, stats).value.stats, count) == Counter(stats, count) + |Counted(events, count)|
  {
    hide Holds, PendingOk, Step, CountsAs, OpenAfter;
    if events == [] {
      assert Counted(events, count) == {};
    } else {
      var front, e := Front(events), Last(events);
      CountersAreTheLog(front, stats, count);
      FailsExactlyThere(front, stats);
      LogHolds(front, stats);
      assert front + [e] == events;
      LineCounts(front, e, ReadLines(front, stats).value, count);
      CountedNext(front, e, count);
    }
  }

  // ---- the report ----

  /** The window holds a turn: both bounds are inside, and a turn without a start is held by no bound only. */
  predicate HeldBy(w: Window, start: Option<Time>) {
    match start
    case None => w.since.None? && w.until.None?
    case Some(time) =>
      (match w.since case None => true case Some(since) => since <= time.at)
      && (match w.until case None => true case Some(until) => time.at <= until)
  }

  /** The kept turns are those of the window, in order. */
  lemma {:induction false} KeptAt(turns: seq<Turn>, w: Window) returns (at: seq<nat>)
    ensures Ascending(at) && forall k: nat :: k in at <==> k < |turns| && HeldBy(w, turns[k].start)
    ensures |KeptOf(turns, w)| == |at|
    ensures forall j :: 0 <= j < |at| ==> at[j] < |turns| && KeptOf(turns, w)[j] == turns[at[j]]
  {
    at := [];
    if turns != [] {
      var front, n := turns[..|turns| - 1], |turns| - 1;
      var before := KeptAt(front, w);
      at := before + if HeldBy(w, turns[n].start) then [n] else [];
      forall k: nat ensures k in at <==> k < |turns| && HeldBy(w, turns[k].start) {
        assert k in at <==> k in before || (k == n && HeldBy(w, turns[n].start));
      }
    }
  }

  lemma {:induction false} UndatedAre(turns: seq<Turn>, w: Window)
    ensures UndatedOf(turns, w)
            == if w.since.None? && w.until.None? then 0 else multiset(StartsOf(turns))[None]
  {
    if turns != [] { UndatedAre(turns[..|turns| - 1], w); }
  }

  lemma {:induction false} EndCounts(s: State, count: Count)
    ensures Counter(AtEnd(s).stats, count) == Counter(s.stats, count)
  {
  }

  /** The report of a file, against the log alone: the turns are the log's, those kept are the ones of the window in
      order, and every counter is raised by the events that count. */
  lemma {:induction false} ReportIsTheLog(events: seq<Event>, stats: Stats, w: Window)
    returns (turns: seq<Turn>, at: seq<nat>)
    requires ReadRollout(events, stats, w).Report?
    ensures AreRecords(events, turns)
    ensures Ascending(at) && forall k: nat :: k in at <==> k < |turns| && HeldBy(w, turns[k].start)
    ensures var r := ReadRollout(events, stats, w);
            |r.kept| == |at| && (forall j :: 0 <= j < |at| ==> at[j] < |turns| && r.kept[j] == turns[at[j]])
            && (forall count :: Counter(r.stats, count) == Counter(stats, count) + |Counted(events, count)|)
            && r.stats.undated
               == stats.undated + if w.since.None? && w.until.None? then 0 else multiset(Starts(events))[None]
  {
    hide AreRecords, ReadLines, KeptOf, UndatedOf, Counter, Counted, Starts, StartsOf, HeldBy, Incomparable, AtEnd,
         TallyAll, Results, CallsMade, OpenTurns, Unfinished;
    var s := ReadLines(events, stats).value;
    turns := AtEnd(s).turns;
    TurnsAreTheLog(events, stats);
    at := KeptAt(turns, w);
    forall count ensures Counter(ReadRollout(events, stats, w).stats, count)
                         == Counter(stats, count) + |Counted(events, count)|
    {
      CountersAreTheLog(events, stats, count);
      EndCounts(s, count);
      UndatedApart(AtEnd(s).stats, UndatedOf(turns, w), count);
    }
    EndBalances(events, stats);
    UndatedAre(turns, w);
    UndatedUntouched(events, stats);
    EndUndated(s);
  }

  lemma {:induction false} UndatedApart(stats: Stats, n: nat, count: Count)
    ensures Counter(stats.(undated := stats.undated + n), count) == Counter(stats, count)
  {
  }

  lemma {:induction false} EndUndated(s: State)
    ensures AtEnd(s).stats.undated == s.stats.undated
  {
  }
}
