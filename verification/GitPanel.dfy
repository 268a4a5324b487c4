/** The Git panel's diff modal: the entry picked, the side of it shown, and the body that belongs to both. */
module GitPanel {
  import opened Options
  import opened Tickets

  datatype Entry = Entry(
    path: string,
    staged: bool,
    unstaged: bool,
    untracked: bool,
    kindUntracked: bool,
    unmerged: bool,
    binary: bool)

  datatype Side = Staged | Worktree

  datatype Outcome = Loaded(body: string) | Failed(error: string)

  datatype Detail = Hint(message: string) | Body(diff: string, side: Side) | Trouble(error: string)

  datatype View = View(selected: Option<Entry>, detail: Option<Detail>, diffSide: Side, guard: Guard)

  /** What is asked for: one side of an entry. */
  datatype Question = Question(entry: Entry, side: Side)

  /** The hint an entry without a diff shows in its place. */
  function Blocked(e: Entry): Option<Detail> {
    if e.untracked || e.kindUntracked then Some(Hint("untrackedNoDiff"))
    else if e.unmerged then Some(Hint("unmergedHint"))
    else if e.binary then Some(Hint("binaryNoDiff"))
    else None
  }

  /** The side a pick opens on. */
  function FirstSide(e: Entry, diffSide: Side): Side {
    if e.staged && e.unstaged then diffSide else if e.staged then Staged else Worktree
  }

  /** An entry with both halves offers the switch between them. */
  predicate TwoSided(e: Entry) {
    e.staged && e.unstaged && !e.binary && !e.unmerged
  }

  // ---- the handlers' synchronous parts ----

  /** `loadDiff` up to its await. */
  function Picked(v: View, e: Entry): View {
    v.(guard := Begun(v.guard), selected := Some(e), detail := Blocked(e))
  }

  /** The side switch: the choice is remembered, and `loadSide` runs on a ticket of its own. */
  function Switched(v: View, e: Entry, side: Side): View {
    v.(guard := Begun(v.guard), diffSide := side, detail := Blocked(e))
  }

  function Closed(v: View): View {
    v.(guard := Begun(v.guard), selected := None, detail := None)
  }

  /** `loadSide` after its await. */
  function Settled(v: View, ticket: nat, side: Side, outcome: Outcome): View {
    if !IsCurrent(v.guard, ticket) then v
    else match outcome
      case Loaded(body) => v.(detail := Some(Body(body, side)))
      case Failed(error) => v.(detail := Some(Trouble(error)))
  }

  /** `refresh` finding no repository: the modal closes, but no ticket is begun. */
  function Emptied(v: View): View {
    v.(selected := None, detail := None)
  }

  class Panel {
    var selected: Option<Entry>
    var detail: Option<Detail>
    var diffSide: Side
    const diffTicket: LatestRequest

    ghost function State(): View
      reads this, diffTicket
    {
      View(selected, detail, diffSide, diffTicket.State())
    }

    constructor ()
      ensures fresh(diffTicket) && State() == EMPTY
    {
      selected, detail, diffSide := None, None, Staged;
      diffTicket := new LatestRequest();
    }

    /** The three branches that answer without a load. */
    method ShowHint(e: Entry) returns (hinted: bool)
      modifies this`detail
      ensures detail == Blocked(e) && (hinted <==> Blocked(e).Some?)
    {
      detail := None;
      if e.untracked || e.kindUntracked {
        detail := Some(Hint("untrackedNoDiff"));
        return true;
      }
      if e.unmerged {
        detail := Some(Hint("unmergedHint"));
        return true;
      }
      if e.binary {
        detail := Some(Hint("binaryNoDiff"));
        return true;
      }
      return false;
    }

    method LoadSide(e: Entry, side: Side, ticket: Option<nat>) returns (question: Option<(nat, Question)>)
      requires ticket.Some? ==> ticket.value == diffTicket.newest
      modifies this`detail, diffTicket
      ensures State() == old(State()).(guard := if ticket.Some? then old(State()).guard else Begun(old(State()).guard),
                                       detail := Blocked(e))
      ensures question == if Blocked(e).Some? then None else Some((State().guard.newest, Question(e, side)))
    {
      var id;
      if ticket.Some? { id := ticket.value; } else { id := diffTicket.Begin(); }
      var hinted := ShowHint(e);
      return if hinted then None else Some((id, Question(e, side)));
    }

    method LoadDiff(e: Entry) returns (question: Option<(nat, Question)>)
      modifies this, diffTicket
      ensures State() == Picked(old(State()), e)
      ensures question == if Blocked(e).Some? then None
                          else Some((State().guard.newest, Question(e, FirstSide(e, old(diffSide)))))
    {
      var id := diffTicket.Begin();
      selected := Some(e);
      var hinted := ShowHint(e);
      if hinted { return None; }
      var side := if e.staged && e.unstaged then diffSide else if e.staged then Staged else Worktree;
      question := LoadSide(e, side, Some(id));
    }

    method SwitchSide(e: Entry, side: Side) returns (question: Option<(nat, Question)>)
      modifies this, diffTicket
      ensures State() == Switched(old(State()), e, side)
      ensures question == if Blocked(e).Some? then None else Some((State().guard.newest, Question(e, side)))
    {
      diffSide := side;
      question := LoadSide(e, side, None);
    }

    method Settle(id: nat, side: Side, outcome: Outcome)
      modifies this`detail
      ensures State() == Settled(old(State()), id, side, outcome)
    {
      if !IsCurrent(diffTicket.State(), id) { return; }
      match outcome
      case Loaded(body) => detail := Some(Body(body, side));
      case Failed(error) => detail := Some(Trouble(error));
    }

    method CloseDiff()
      modifies this, diffTicket
      ensures State() == Closed(old(State()))
    {
      var _ := diffTicket.Begin();
      selected := None;
      detail := None;
    }

    method LeaveRepo()
      modifies this
      ensures State() == Emptied(old(State()))
    {
      selected := None;
      detail := None;
    }
  }

  // ---- runs ----

  datatype System = System(view: View, asked: map<nat, Question>, answers: map<nat, Outcome>)

  datatype Event =
    | Pick(entry: Entry)
    | Switch(side: Side)
    | Close
    | Answer(ticket: nat, outcome: Outcome)
    | LeaveRepo
    | Unmount

  const EMPTY: View := View(None, None, Staged, Guard(0, true))

  const INITIAL: System := System(EMPTY, map[], map[])

  predicate Enabled(s: System, e: Event) {
    match e
    case Switch(_) => s.view.guard.alive && s.view.selected.Some? && TwoSided(s.view.selected.value)
    case Answer(ticket, _) => ticket in s.asked && ticket !in s.answers
    case _ => s.view.guard.alive
  }

  function Asking(s: System, e: Entry, side: Side): map<nat, Question> {
    if Blocked(e).Some? then s.asked else s.asked[s.view.guard.newest + 1 := Question(e, side)]
  }

  function Step(s: System, e: Event): System
    requires Enabled(s, e)
  {
    match e
    case Pick(entry) =>
      s.(view := Picked(s.view, entry), asked := Asking(s, entry, FirstSide(entry, s.view.diffSide)))
    case Switch(side) =>
      var entry := s.view.selected.value;
      s.(view := Switched(s.view, entry, side), asked := Asking(s, entry, side))
    case Close => s.(view := Closed(s.view))
    case Answer(ticket, outcome) =>
      s.(view := Settled(s.view, ticket, s.asked[ticket].side, outcome), answers := s.answers[ticket := outcome])
    case LeaveRepo => s.(view := Emptied(s.view))
    case Unmount => s.(view := s.view.(guard := Unmounted(s.view.guard)))
  }

  /** The states some run reaches, with the run as evidence. */
  predicate Runs(events: seq<Event>, states: seq<System>) {
    |states| == |events| + 1 && states[0] == INITIAL
    && forall i :: 0 <= i < |events| ==> Enabled(states[i], events[i]) && states[i + 1] == Step(states[i], events[i])
  }

  // ---- what every run keeps ----

  predicate Pending(s: System, ticket: nat) {
    ticket in s.asked && ticket !in s.answers
  }

  predicate Numbered(s: System) {
    (forall t :: t in s.asked ==> 0 < t <= s.view.guard.newest && Blocked(s.asked[t].entry) == None)
    && (forall t :: t in s.answers ==> t in s.asked)
  }

  /** The detail that an answer to a question shows. */
  function Shown(q: Question, outcome: Outcome): Detail {
    match outcome
    case Loaded(body) => Body(body, q.side)
    case Failed(error) => Trouble(error)
  }

  /** A selected entry's detail is its hint, or the answer to the newest question, which was about that entry and the
      side the switch shows; without a selection at most a late answer is left. */
  predicate Owned(s: System) {
    var v, newest := s.view, s.view.guard.newest;
    match v.selected
    case Some(e) =>
      (newest in s.asked <==> Blocked(e) == None)
      && (newest in s.asked ==>
            s.asked[newest].entry == e && s.asked[newest].side == FirstSide(e, v.diffSide)
            && v.detail == if newest in s.answers then Some(Shown(s.asked[newest], s.answers[newest])) else None)
      && (newest !in s.asked ==> v.detail == Blocked(e))
    case None =>
      v.detail.Some? ==>
        newest in s.asked && newest in s.answers && v.detail == Some(Shown(s.asked[newest], s.answers[newest]))
  }

  predicate Inv(s: System) {
    Numbered(s) && (s.view.guard.alive ==> Owned(s))
  }

  lemma {:induction false} StepKeepsInv(s: System, e: Event)
    requires Inv(s) && Enabled(s, e)
    ensures Inv(Step(s, e))
  {
  }

  lemma {:induction false} RunsKeepInv(events: seq<Event>, states: seq<System>, k: nat)
    requires Runs(events, states) && k < |states|
    ensures Inv(states[k])
    decreases k
  {
    if k > 0 {
      RunsKeepInv(events, states, k - 1);
      StepKeepsInv(states[k - 1], events[k - 1]);
    }
  }

  /** Whatever the interleaving, a body shown with a selected entry was loaded for that entry, from the side the
      switch shows when the entry has two, and in answer to the newest question. */
  lemma {:induction false} ShownBodyIsTheEntrys(events: seq<Event>, states: seq<System>, k: nat, e: Entry, body: string,
                                                side: Side)
    requires Runs(events, states) && k < |states| && states[k].view.guard.alive
    requires states[k].view.selected == Some(e) && states[k].view.detail == Some(Body(body, side))
    ensures var s := states[k]; var newest := s.view.guard.newest;
            newest in s.answers && newest in s.asked && s.answers[newest] == Loaded(body)
            && s.asked[newest] == Question(e, side)
            && (if e.staged && e.unstaged then side == s.view.diffSide else side == Staged <==> e.staged)
  {
    RunsKeepInv(events, states, k);
  }

  /** Event i asked question t: picking its entry, or switching the side of its entry. */
  predicate AskedAt(events: seq<Event>, states: seq<System>, i: nat, t: nat, q: Question)
    requires i < |events| && |states| == |events| + 1
  {
    t !in states[i].asked && t in states[i + 1].asked && states[i + 1].asked[t] == q
    && (events[i] == Pick(q.entry) || (events[i] == Switch(q.side) && states[i].view.selected == Some(q.entry)))
  }

  lemma {:induction false} StepAsks(s: System, e: Event, t: nat)
    requires Inv(s) && Enabled(s, e) && t in Step(s, e).asked
    ensures t in s.asked ==> Step(s, e).asked[t] == s.asked[t]
    ensures t !in s.asked ==>
              var q, after := Step(s, e).asked[t], Step(s, e).view;
              (e == Pick(q.entry) || (e == Switch(q.side) && s.view.selected == Some(q.entry)))
              && (if q.entry.staged && q.entry.unstaged then q.side == after.diffSide
                  else q.side == Staged <==> q.entry.staged)
  {
  }

  /** Every question was asked by a pick or a switch. It is for the side the switch then showed, when its entry has two,
      and otherwise for the staged side exactly when its entry is staged. */
  lemma {:induction false} QuestionsAskTheRightSide(events: seq<Event>, states: seq<System>, k: nat, t: nat)
    returns (i: nat)
    requires Runs(events, states) && k < |states| && t in states[k].asked
    ensures i < k && AskedAt(events, states, i, t, states[k].asked[t])
    ensures var q := states[k].asked[t];
            if q.entry.staged && q.entry.unstaged then q.side == states[i + 1].view.diffSide
            else q.side == Staged <==> q.entry.staged
    decreases k
  {
    RunsKeepInv(events, states, k - 1);
    var s, e := states[k - 1], events[k - 1];
    assert states[k] == Step(s, e) && Enabled(s, e);
    StepAsks(s, e, t);
    if t in s.asked {
      i := QuestionsAskTheRightSide(events, states, k - 1, t);
    } else {
      i := k - 1;
    }
  }

  /** An open modal shows a hint exactly for an entry that has no diff: an untracked one, an unmerged one, a binary one,
      each with its own words. */
  lemma {:induction false} HintsSayWhy(events: seq<Event>, states: seq<System>, k: nat, e: Entry)
    requires Runs(events, states) && k < |states| && states[k].view.guard.alive && states[k].view.selected == Some(e)
    ensures var detail, untracked := states[k].view.detail, e.untracked || e.kindUntracked;
            (untracked <==> detail == Some(Hint("untrackedNoDiff")))
            && (!untracked && e.unmerged <==> detail == Some(Hint("unmergedHint")))
            && (!untracked && !e.unmerged && e.binary <==> detail == Some(Hint("binaryNoDiff")))
            && (!untracked && !e.unmerged && !e.binary <==> detail == None || !detail.value.Hint?)
  {
    RunsKeepInv(events, states, k);
  }

  /** An open modal is blank exactly while the newest question is unanswered; it never stays blank for nothing. */
  lemma {:induction false} BlankMeansLoading(events: seq<Event>, states: seq<System>, k: nat)
    requires Runs(events, states) && k < |states| && states[k].view.guard.alive && states[k].view.selected.Some?
    ensures states[k].view.detail == None <==> Pending(states[k], states[k].view.guard.newest)
  {
    RunsKeepInv(events, states, k);
  }

  // ---- leaving a repository ----

  /** An event that empties the modal or fills it with another entry. */
  predicate Clears(e: Event) {
    e.Pick? || e.Close? || e.LeaveRepo?
  }

  /** Event p left the repository, and nothing was picked, closed or left since. */
  predicate LeftLast(events: seq<Event>, k: nat, p: nat)
    requires p < k <= |events|
  {
    events[p] == LeaveRepo && forall j :: p < j < k ==> !Clears(events[j])
  }

  ghost predicate LeftBehind(events: seq<Event>, k: nat)
    requires k <= |events|
  {
    exists p :: 0 <= p < k && LeftLast(events, k, p)
  }

  /** Then event i answered the newest question on screen. */
  predicate Landed(events: seq<Event>, states: seq<System>, k: nat, p: nat, i: nat)
    requires p < i < k <= |events| && |states| == |events| + 1
  {
    LeftLast(events, k, p) && events[i].Answer? && IsCurrent(states[i].view.guard, events[i].ticket)
  }

  ghost predicate LandedUnseen(events: seq<Event>, states: seq<System>, k: nat)
    requires k <= |events| && |states| == |events| + 1
  {
    exists p, i :: 0 <= p < i < k && Landed(events, states, k, p, i)
  }

  lemma {:induction false} LeftStep(events: seq<Event>, m: nat)
    requires m < |events|
    ensures LeftBehind(events, m + 1) <==> events[m] == LeaveRepo || (!Clears(events[m]) && LeftBehind(events, m))
  {
    if LeftBehind(events, m + 1) {
      var p :| 0 <= p < m + 1 && LeftLast(events, m + 1, p);
      if p < m { assert LeftLast(events, m, p); }
    }
    if events[m] == LeaveRepo { assert LeftLast(events, m + 1, m); }
    if !Clears(events[m]) && LeftBehind(events, m) {
      var p :| 0 <= p < m && LeftLast(events, m, p);
      assert LeftLast(events, m + 1, p);
    }
  }

  /** With nothing selected, the newest question can only be waiting because the repository was left. */
  lemma {:induction false} OnlyLeavingKeepsTheLoad(events: seq<Event>, states: seq<System>, k: nat)
    requires Runs(events, states) && k < |states|
    requires states[k].view.selected == None && states[k].view.guard.newest in states[k].asked
    ensures states[k].view.guard.alive ==> LeftBehind(events, k)
  {
    RunsKeepInv(events, states, k);
    if k > 0 {
      RunsKeepInv(events, states, k - 1);
      var s, e := states[k - 1], events[k - 1];
      assert states[k] == Step(s, e) && Enabled(s, e);
      LeftStep(events, k - 1);
      if e.Answer? { OnlyLeavingKeepsTheLoad(events, states, k - 1); }
    }
  }

  lemma {:induction false} LandedStep(events: seq<Event>, states: seq<System>, m: nat)
    requires m < |events| && |states| == |events| + 1
    ensures LandedUnseen(events, states, m + 1)
            <==> !Clears(events[m])
                 && (LandedUnseen(events, states, m)
                     || (events[m].Answer? && IsCurrent(states[m].view.guard, events[m].ticket)
                         && LeftBehind(events, m)))
  {
    if LandedUnseen(events, states, m + 1) {
      var p, i :| 0 <= p < i < m + 1 && Landed(events, states, m + 1, p, i);
      assert LeftLast(events, m, p);
      if i < m { assert Landed(events, states, m, p, i); }
    }
    if !Clears(events[m]) && LandedUnseen(events, states, m) {
      var p, i :| 0 <= p < i < m && Landed(events, states, m, p, i);
      assert Landed(events, states, m + 1, p, i);
    }
    if events[m].Answer? && IsCurrent(states[m].view.guard, events[m].ticket) && LeftBehind(events, m) {
      var p :| 0 <= p < m && LeftLast(events, m, p);
      assert Landed(events, states, m + 1, p, m);
    }
  }

  /** Leaving the repository does not retire the load. In every run, with no entry selected, a detail is there unseen
      exactly when the repository was left, the newest question was answered after that, and nothing was picked, closed
      or left since. */
  lemma {:induction false} LeavingDoesNotRetire(events: seq<Event>, states: seq<System>, k: nat)
    requires Runs(events, states) && k < |states| && states[k].view.selected == None
    ensures states[k].view.detail.Some? <==> LandedUnseen(events, states, k)
  {
    if k > 0 {
      var s, e := states[k - 1], events[k - 1];
      assert states[k] == Step(s, e) && Enabled(s, e);
      hide LandedUnseen, LeftBehind, Inv;
      LandedStep(events, states, k - 1);
      if !Clears(e) {
        assert s.view.selected == None;
        LeavingDoesNotRetire(events, states, k - 1);
        if e.Answer? && IsCurrent(s.view.guard, e.ticket) { OnlyLeavingKeepsTheLoad(events, states, k - 1); }
      }
    }
  }

  /** It does happen: pick, leave, and the answer lands in a modal that is not there. */
  lemma {:induction false} LeftLoadLands(entry: Entry, body: string) returns (events: seq<Event>, states: seq<System>)
    requires Blocked(entry) == None
    ensures Runs(events, states) && events == [Pick(entry), LeaveRepo, Answer(1, Loaded(body))]
    ensures var v := states[|events|].view;
            v.selected == None && v.detail == Some(Body(body, FirstSide(entry, Staged)))
  {
    events := [Pick(entry), LeaveRepo, Answer(1, Loaded(body))];
    var s1 := Step(INITIAL, events[0]);
    var s2 := Step(s1, events[1]);
    states := [INITIAL, s1, s2, Step(s2, events[2])];
  }

  // ---- the order of arrival ----

  /** A reply to a question asked and not answered yet; any other is none. */
  function Answered(s: System, r: Reply<Outcome>): System {
    var e := Answer(r.ticket, r.outcome);
    if Enabled(s, e) then Step(s, e) else s
  }

  lemma {:induction false} AnswersCommute()
    ensures Commutes(Answered)
  {
    forall s: System, p: Reply<Outcome>, q: Reply<Outcome> | p.ticket != q.ticket
      ensures Answered(Answered(s, p), q) == Answered(Answered(s, q), p)
    {
      assert s.answers[p.ticket := p.outcome][q.ticket := q.outcome]
             == s.answers[q.ticket := q.outcome][p.ticket := p.outcome];
    }
  }

  /** The same replies to different questions leave the same state in whatever order they arrive. */
  lemma {:induction false} AnyOrderOfArrival(s: System, a: seq<Reply<Outcome>>, b: seq<Reply<Outcome>>)
    requires Different(a) && Different(b) && forall r :: r in a <==> r in b
    ensures Arrived(Answered, s, a) == Arrived(Answered, s, b)
  {
    hide Arrived, Commutes, Answered;
    AnswersCommute();
    ArrivedInAnyOrder(Answered, s, a, b);
  }
}
