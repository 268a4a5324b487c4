/** The reader of one rollout file: a turn object filled in place, closed turns pushed onto a list, and a map of the
    calls that wait for their results. */
module RolloutReader {
  import opened Options
  import opened Rollout

  class TurnObject {
    const start: Option<Time>
    var status: Status
    var calls: seq<Call>
    var texts: nat
    var reasoning: nat

    constructor (start: Option<Time>)
      ensures Value() == Fresh(start)
    {
      this.start, status, calls, texts, reasoning := start, Open, [], 0, 0;
    }

    ghost function Value(): Turn
      reads this
    {
      Turn(start, status, calls, texts, reasoning)
    }
  }

  ghost function Values(turns: seq<TurnObject>): (r: seq<Turn>)
    reads turns
    ensures |r| == |turns|
  {
    if turns == [] then [] else Values(turns[..|turns| - 1]) + [turns[|turns| - 1].Value()]
  }

  lemma {:induction false} ValuesNext(turns: seq<TurnObject>, t: TurnObject)
    ensures Values(turns + [t]) == Values(turns) + [t.Value()]
  {
  }

  class Reader {
    var turns: seq<TurnObject>
    var cur: TurnObject?
    var pending: map<string, nat>
    var stats: Stats

    constructor (stats: Stats)
      ensures Valid() && State() == Begin(stats) && cur == null && turns == []
    {
      turns, cur, pending, this.stats := [], null, map[], stats;
    }

    /** The turn being filled is not among the closed ones, which no line touches again. */
    ghost predicate Valid()
      reads this
    {
      cur != null ==> cur !in turns
    }

    ghost function State(): State
      requires Valid()
      reads this, turns, cur
    {
      Rollout.State(Values(turns), if cur == null then None else Some(cur.Value()), pending, stats)
    }

    method CloseCurrent()
      requires Valid() && cur != null
      modifies this
      ensures Valid() && cur == null && turns == old(turns) + [old(cur)]
      ensures State() == old(State()).(turns := old(State()).turns + [old(State()).cur.value], cur := None)
    {
      ValuesNext(turns, cur);
      turns := turns + [cur];
      cur := null;
    }

    /** One line of the file. */
    method Feed(e: Event) returns (raised: bool)
      requires Valid()
      modifies this, cur
      ensures raised <==> Step(old(State()), e).None?
      ensures !raised ==> Valid() && State() == Step(old(State()), e).value
      ensures cur == old(cur) || cur == null || fresh(cur)
      ensures turns == old(turns) || (old(cur) != null && turns == old(turns) + [old(cur)])
    {
      hide Values;
      raised := false;
      match e
      case Ignored =>
      case NotJson => stats := stats.(badLines := stats.badLines + 1);
      case Malformed => raised := true;
      case TurnStarted(time) =>
        pending := map[];
        if cur != null {
          stats := stats.(unfinished := stats.unfinished + 1);
          CloseCurrent();
        }
        cur := new TurnObject(time);
      case TurnEnded(failed) =>
        if cur != null {
          cur.status := if failed then Failed else Completed;
          CloseCurrent();
        }
      case ToolCall(tool, args, callId) =>
        if cur != null {
          pending := pending[callId := |cur.calls|];
          cur.calls := cur.calls + [Call(tool, callId, (tool, args.dump), args, Unresolved)];
        }
      case ToolResult(callId, content, isError) =>
        if cur != null { raised := FeedResult(callId, content, isError); }
      case AssistantMessage =>
        if cur != null { cur.texts := cur.texts + 1; }
      case Reasoning =>
        if cur != null { cur.reasoning := cur.reasoning + 1; }
      case BadItem => raised := cur != null;
    }

    method FeedResult(callId: string, content: Option<Content>, isError: bool) returns (raised: bool)
      requires Valid() && cur != null
      modifies this`pending, this`stats, cur
      ensures raised <==> Step(old(State()), ToolResult(callId, content, isError)).None?
      ensures !raised ==> State() == Step(old(State()), ToolResult(callId, content, isError)).value
    {
      if callId !in pending {
        if COMPACT <= callId {
          stats := stats.(compactions := stats.compactions + 1);
        } else {
          stats := stats.(orphans := stats.orphans + 1);
        }
        return false;
      }
      var idx := pending[callId];
      pending := pending - {callId};
      if idx >= |cur.calls| || cur.calls[idx].slot != Unresolved { return true; }
      var call := cur.calls[idx];
      raised := false;
      match content
      case None =>
        stats := stats.(noContent := stats.noContent + 1);
        cur.calls := cur.calls[idx := call.(slot := NoContent)];
      case Some(c) =>
        var result := Sizing(c.length, c.excerpt, isError, isError && c.timeoutWords);
        cur.calls := cur.calls[idx := call.(slot := Sized(result))];
    }

    /** Whether the start lies in the window; the comparison raises where the start has no offset. */
    static method InWindow(start: Time, w: Window) returns (raised: bool, inside: bool)
      ensures raised <==> Bounded(w) && !start.offset
      ensures !raised ==> (inside <==> Inside(w, start))
    {
      if w.since.Some? {
        if !start.offset { return true, false; }
        if start.at < w.since.value { return false, false; }
      }
      if w.until.Some? {
        if !start.offset { return true, false; }
        if start.at > w.until.value { return false, false; }
      }
      return false, true;
    }

    /** The turns of the window, in order, as values; the undated ones that a bounded window drops are counted. It
        raises at a start that cannot be compared. */
    method KeepWindow(w: Window) returns (raised: bool, kept: seq<Turn>)
      requires Valid() && cur == null
      modifies this`stats
      ensures raised <==> Incomparable(w, old(State()).turns)
      ensures !raised ==> kept == KeptOf(old(State()).turns, w)
      ensures !raised ==> stats == old(stats).(undated := old(stats).undated + UndatedOf(old(State()).turns, w))
    {
      hide Values;
      ghost var all := Values(turns);
      kept := [];
      assert all[..0] == [];
      for k := 0 to |turns|
        invariant Values(turns) == all && kept == KeptOf(all[..k], w)
        invariant stats == old(stats).(undated := old(stats).undated + UndatedOf(all[..k], w))
        invariant Bounded(w) ==> forall j :: 0 <= j < k ==> !NoOffset(all[j].start)
      {
        assert all[..k + 1][..k] == all[..k];
        ValuesAt(turns, k);
        var t := turns[k];
        if t.start.None? {
          if w.since.Some? || w.until.Some? {
            stats := stats.(undated := stats.undated + 1);
            continue;
          }
        } else {
          var failed, inside := InWindow(t.start.value, w);
          if failed {
            assert NoOffset(all[k].start);
            return true, [];
          }
          if !inside { continue; }
        }
        kept := kept + [Turn(t.start, t.status, t.calls, t.texts, t.reasoning)];
      }
      assert all[..|turns|] == all;
      raised := false;
    }
  }

  /** `read_rollout`: the lines in order, then the turns of the window. */
  method ReadFile(events: seq<Event>, stats: Stats, w: Window) returns (report: Report)
    ensures report == ReadRollout(events, stats, w)
  {
    hide Step, KeptOf, UndatedOf, Values, Incomparable;
    var reader: Reader := new Reader(stats);
    for k := 0 to |events|
      invariant fresh(reader) && fresh(reader.turns) && (reader.cur != null ==> fresh(reader.cur)) && reader.Valid()
      invariant ReadLines(events[..k], stats) == Some(reader.State())
    {
      assert events[..k + 1][..k] == events[..k];
      var raised := reader.Feed(events[k]);
      if raised {
        RaisedStays(events, k + 1, stats);
        return Raised;
      }
    }
    assert events[..|events|] == events;
    if reader.cur != null {
      reader.stats := reader.stats.(unfinished := reader.stats.unfinished + 1);
      reader.CloseCurrent();
    }
    var raised, kept := reader.KeepWindow(w);
    if raised { return Raised; }
    return Report(kept, reader.stats);
  }

  lemma {:induction false} ValuesAt(turns: seq<TurnObject>, k: nat)
    requires k < |turns|
    ensures Values(turns)[k] == turns[k].Value()
    decreases |turns|
  {
    if k < |turns| - 1 { ValuesAt(turns[..|turns| - 1], k); }
  }

  lemma {:induction false} RaisedStays(events: seq<Event>, k: nat, stats: Stats)
    requires k <= |events| && ReadLines(events[..k], stats).None?
    ensures ReadLines(events, stats).None?
    decreases |events|
  {
    if k < |events| {
      var front := events[..|events| - 1];
      assert front[..k] == events[..k];
      RaisedStays(front, k, stats);
    } else {
      assert events[..k] == events;
    }
  }
}
