/** The commit modal's diff loads: handlers that run between awaits, and what every interleaving of them keeps. */
module CommitDetail {
  import opened Options
  import opened Tickets

  datatype File = File(path: string, binary: bool)

  datatype Outcome = Loaded(body: string) | Failed(error: string)

  /** What the modal shows, and its ticket guard. */
  datatype View = View(
    snapshot: Option<seq<File>>,
    listError: string,
    selectedPath: Option<string>,
    diff: Option<string>,
    diffMessage: string,
    diffError: string,
    diffLoading: bool,
    guard: Guard)

  const BINARY: string := "binaryNoDiff"

  // ---- the handlers' synchronous parts ----

  /** `selectFile` up to its await. */
  function Selected(v: View, file: File): View {
    v.(guard := Begun(v.guard), selectedPath := Some(file.path), diff := None,
       diffMessage := if file.binary then BINARY else "", diffError := "", diffLoading := !file.binary)
  }

  /** `selectFile` after its await. */
  function Settled(v: View, ticket: nat, outcome: Outcome): View {
    if !IsCurrent(v.guard, ticket) then v
    else match outcome
      case Loaded(body) => v.(diff := Some(body), diffLoading := false)
      case Failed(error) => v.(diffError := error, diffLoading := false)
  }

  /** `loadFiles` up to its await. */
  function Reloading(v: View): View {
    v.(guard := Begun(v.guard), listError := "", snapshot := None, selectedPath := None, diff := None,
       diffMessage := "", diffLoading := false)
  }

  /** `loadFiles` after its await. */
  function Listed(v: View, files: seq<File>): View {
    var shown := v.(snapshot := Some(files));
    if files == [] then shown else Selected(shown, files[0])
  }

  /** The modal as an object: each handler runs its assignments one by one. */
  class Modal {
    var snapshot: Option<seq<File>>
    var listError: string
    var selectedPath: Option<string>
    var diff: Option<string>
    var diffMessage: string
    var diffError: string
    var diffLoading: bool
    const diffTicket: LatestRequest

    ghost function State(): View
      reads this, diffTicket
    {
      View(snapshot, listError, selectedPath, diff, diffMessage, diffError, diffLoading, diffTicket.State())
    }

    constructor ()
      ensures fresh(diffTicket) && State() == EMPTY
    {
      snapshot, listError, selectedPath := None, "", None;
      diff, diffMessage, diffError, diffLoading := None, "", "", false;
      diffTicket := new LatestRequest();
    }

    /** A ticket to await the diff with, unless the file has none to load. */
    method SelectFile(file: File) returns (ticket: Option<nat>)
      modifies this, diffTicket
      ensures State() == Selected(old(State()), file)
      ensures ticket == if file.binary then None else Some(State().guard.newest)
    {
      var id := diffTicket.Begin();
      selectedPath := Some(file.path);
      diff := None;
      diffMessage := "";
      diffError := "";
      if file.binary {
        diffMessage := BINARY;
        diffLoading := false;
        return None;
      }
      diffLoading := true;
      return Some(id);
    }

    method Settle(id: nat, outcome: Outcome)
      modifies this
      ensures State() == Settled(old(State()), id, outcome)
    {
      if IsCurrent(diffTicket.State(), id) {
        match outcome
        case Loaded(body) => diff := Some(body);
        case Failed(error) => diffError := error;
      }
      if IsCurrent(diffTicket.State(), id) {
        diffLoading := false;
      }
    }

    method LoadFiles()
      modifies this, diffTicket
      ensures State() == Reloading(old(State()))
    {
      var _ := diffTicket.Begin();
      listError := "";
      snapshot := None;
      selectedPath := None;
      diff := None;
      diffMessage := "";
      diffLoading := false;
    }

    method ListLoaded(files: seq<File>) returns (ticket: Option<nat>)
      modifies this, diffTicket
      ensures State() == Listed(old(State()), files)
      ensures ticket == if files == [] || files[0].binary then None else Some(State().guard.newest)
    {
      snapshot := Some(files);
      if |files| > 0 {
        ticket := SelectFile(files[0]);
      } else {
        ticket := None;
      }
    }

    method ListFailed(error: string)
      modifies this
      ensures State() == old(State()).(listError := error)
    {
      listError := error;
    }
  }

  // ---- runs ----

  /** The modal with every load it ever asked for, by ticket, and the answers that came back; with how many lists it
      asked for, what came back of them (None for an error), and which of them its snapshot holds. */
  datatype System = System(
    view: View,
    asked: map<nat, string>,
    answers: map<nat, Outcome>,
    lists: nat,
    heard: map<nat, Option<seq<File>>>,
    shown: Option<nat>)

  datatype Event =
    | Pick(file: File)
    | Answer(ticket: nat, outcome: Outcome)
    | Retry
    | ListAnswer(list: nat, files: seq<File>)
    | ListError(list: nat, error: string)
    | Unmount
    | Mount

  const EMPTY: View := View(None, "", None, None, "", "", false, Guard(0, true))

  /** The modal after its first mount: the list of files has been asked for. */
  const INITIAL: System := System(Reloading(EMPTY), map[], map[], 1, map[], None)

  /** Rows and arrow keys pick from the snapshot; the retry button stands beside a list error; an answer arrives once
      for each question. Unmount and Mount are the two halves of an effect run again on the same state, as React's
      strict mode does. */
  predicate Enabled(s: System, e: Event) {
    match e
    case Pick(file) => s.view.guard.alive && s.view.snapshot.Some? && file in s.view.snapshot.value
    case Retry => s.view.guard.alive && s.view.listError != ""
    case Answer(ticket, _) => ticket in s.asked && ticket !in s.answers
    case ListAnswer(list, _) => list < s.lists && list !in s.heard
    case ListError(list, _) => list < s.lists && list !in s.heard
    case Unmount => s.view.guard.alive
    case Mount => !s.view.guard.alive
  }

  function Asking(s: System, file: File): map<nat, string> {
    if file.binary then s.asked else s.asked[s.view.guard.newest + 1 := file.path]
  }

  function Step(s: System, e: Event): System {
    match e
    case Pick(file) => s.(view := Selected(s.view, file), asked := Asking(s, file))
    case Answer(ticket, outcome) =>
      s.(view := Settled(s.view, ticket, outcome), answers := s.answers[ticket := outcome])
    case Retry => s.(view := Reloading(s.view), lists := s.lists + 1, shown := None)
    case ListAnswer(list, files) =>
      s.(view := Listed(s.view, files), asked := if files == [] then s.asked else Asking(s, files[0]),
         heard := s.heard[list := Some(files)], shown := Some(list))
    case ListError(list, error) =>
      s.(view := s.view.(listError := error), heard := s.heard[list := None])
    case Unmount => s.(view := s.view.(guard := Unmounted(s.view.guard)))
    case Mount =>
      s.(view := Reloading(s.view.(guard := s.view.guard.(alive := true))), lists := s.lists + 1, shown := None)
  }

  /** The states some run reaches, with the run as evidence. */
  predicate Runs(events: seq<Event>, states: seq<System>) {
    |states| == |events| + 1 && states[0] == INITIAL
    && forall i :: 0 <= i < |events| ==> Enabled(states[i], events[i]) && states[i + 1] == Step(states[i], events[i])
  }

  // ---- what every run keeps ----

  predicate Pending(s: System, ticket: nat) {
    ticket in s.asked && ticket !in s.answers
  }

  /** Tickets are numbered up to the newest, and only asked questions are answered. */
  predicate Numbered(s: System) {
    (forall t :: t in s.asked ==> 0 < t <= s.view.guard.newest) && (forall t :: t in s.answers ==> t in s.asked)
  }

  /** Body, message, error and spinner are those of the newest ticket. */
  predicate Owned(s: System) {
    var v, newest := s.view, s.view.guard.newest;
    (v.diffLoading <==> Pending(s, newest))
    && (newest in s.asked ==> v.selectedPath == Some(s.asked[newest]) && v.diffMessage == "")
    && (newest in s.answers ==>
          match s.answers[newest]
          case Loaded(body) => v.diff == Some(body) && v.diffError == ""
          case Failed(error) => v.diff == None && v.diffError == error)
    && (newest !in s.answers ==> v.diff == None)
    && (Pending(s, newest) ==> v.diffError == "")
    && (newest !in s.asked && v.selectedPath.Some? ==> v.diffMessage == BINARY && v.diffError == "")
    && (v.selectedPath == None ==> newest !in s.asked && v.diffMessage == "")
  }

  predicate Inv(s: System) {
    Numbered(s) && (s.view.guard.alive ==> Owned(s))
  }

  lemma {:induction false} StepKeepsInv(s: System, e: Event)
    requires Inv(s) && Enabled(s, e)
    ensures Inv(Step(s, e))
  {
  }

  lemma {:induction false} RunsKeepInv(events: seq<Event>, states: seq<System>, k: nat)
    requires Runs(events, states) && k < |states|
    ensures Inv(states[k])
    decreases k
  {
    if k > 0 {
      RunsKeepInv(events, states, k - 1);
      StepKeepsInv(states[k - 1], events[k - 1]);
    }
  }

  /** Whatever the interleaving, a diff on screen was the answer to the newest question, which was for the selected
      file; and the spinner turns exactly while that question is unanswered. */
  lemma {:induction false} ShownDiffIsSelected(events: seq<Event>, states: seq<System>, k: nat)
    requires Runs(events, states) && k < |states| && states[k].view.guard.alive
    ensures var s := states[k]; var newest := s.view.guard.newest;
            s.view.diff.Some? ==>
              newest in s.asked && newest in s.answers && s.answers[newest] == Loaded(s.view.diff.value)
              && s.view.selectedPath == Some(s.asked[newest])
    ensures states[k].view.diffLoading <==> Pending(states[k], states[k].view.guard.newest)
  {
    RunsKeepInv(events, states, k);
  }

  /** A selected file is in exactly one condition: loading, shown, failed, or binary. */
  lemma {:induction false} OneConditionAtATime(events: seq<Event>, states: seq<System>, k: nat)
    requires Runs(events, states) && k < |states| && states[k].view.guard.alive
    requires states[k].view.selectedPath.Some?
    ensures var s := states[k]; var v, newest := s.view, s.view.guard.newest;
            var failed := newest in s.answers && s.answers[newest] == Failed(v.diffError);
            (if v.diffLoading then 1 else 0) + (if v.diff.Some? then 1 else 0) + (if failed then 1 else 0)
            + (if v.diffMessage == BINARY then 1 else 0) == 1
            && (v.diffError != "" ==> failed)
  {
    RunsKeepInv(events, states, k);
  }

  /** Only the newest question's answer, arriving on screen, changes what is shown. */
  lemma {:induction false} LateAnswersAreDropped(events: seq<Event>, states: seq<System>, k: nat, ticket: nat,
                                                 outcome: Outcome)
    requires Runs(events, states) && k < |states| && Enabled(states[k], Answer(ticket, outcome))
    ensures var s := states[k];
            Step(s, Answer(ticket, outcome)).view != s.view <==> ticket == s.view.guard.newest && s.view.guard.alive
  {
    RunsKeepInv(events, states, k);
  }

  // ---- the order of arrival ----

  function Answered(s: System, r: Reply<Outcome>): System {
    Step(s, Answer(r.ticket, r.outcome))
  }

  lemma {:induction false} AnswersCommute()
    ensures Commutes(Answered)
  {
    forall s: System, p: Reply<Outcome>, q: Reply<Outcome> | p.ticket != q.ticket
      ensures Answered(Answered(s, p), q) == Answered(Answered(s, q), p)
    {
      assert s.answers[p.ticket := p.outcome][q.ticket := q.outcome]
             == s.answers[q.ticket := q.outcome][p.ticket := p.outcome];
    }
  }

  /** The same replies to different questions leave the same state in whatever order they arrive. */
  lemma {:induction false} AnyOrderOfArrival(s: System, a: seq<Reply<Outcome>>, b: seq<Reply<Outcome>>)
    requires Different(a) && Different(b) && forall r :: r in a <==> r in b
    ensures Arrived(Answered, s, a) == Arrived(Answered, s, b)
  {
    hide Arrived, Commutes, Answered;
    AnswersCommute();
    ArrivedInAnyOrder(Answered, s, a, b);
  }

  // ---- lists, which are not ticketed ----

  predicate HeardOk(s: System) {
    (forall l :: l in s.heard ==> l < s.lists) && s.lists > 0
    && match s.shown
       case None => s.view.snapshot == None
       case Some(l) => l in s.heard && s.heard[l] == s.view.snapshot && s.view.snapshot.Some?
  }

  lemma {:induction false} RunsKeepHeard(events: seq<Event>, states: seq<System>, k: nat)
    requires Runs(events, states) && k < |states|
    ensures HeardOk(states[k])
  {
    if k > 0 {
      RunsKeepHeard(events, states, k - 1);
      assert Enabled(states[k - 1], events[k - 1]);
    }
  }

  lemma {:induction false} ListsGrow(events: seq<Event>, states: seq<System>, i: nat, k: nat)
    requires Runs(events, states) && i <= k < |states|
    ensures states[i].lists <= states[k].lists
    decreases k - i
  {
    if i < k {
      ListsGrow(events, states, i, k - 1);
      assert states[k] == Step(states[k - 1], events[k - 1]);
    }
  }

  /** Event i brought the newest list, and no list has arrived since. */
  predicate NewestCameLast(events: seq<Event>, states: seq<System>, k: nat, i: nat)
    requires i < k <= |events| && |states| == |events| + 1
  {
    events[i].ListAnswer? && events[i].list + 1 == states[k].lists
    && forall j :: i < j < k ==> !events[j].ListAnswer?
  }

  ghost predicate NewestIsLast(events: seq<Event>, states: seq<System>, k: nat)
    requires k <= |events| && |states| == |events| + 1
  {
    exists i :: 0 <= i < k && NewestCameLast(events, states, k, i)
  }

  lemma {:induction false} SameLater(events: seq<Event>, states: seq<System>, m: nat, k: nat)
    requires k == m + 1 <= |events| && |states| == |events| + 1 && states[k].lists == states[m].lists
    requires !events[m].ListAnswer?
    ensures NewestIsLast(events, states, k) <==> NewestIsLast(events, states, m)
  {
    if NewestIsLast(events, states, k) {
      var i :| 0 <= i < k && NewestCameLast(events, states, k, i);
      assert NewestCameLast(events, states, m, i);
    }
    if NewestIsLast(events, states, m) {
      var i :| 0 <= i < m && NewestCameLast(events, states, m, i);
      assert NewestCameLast(events, states, k, i);
    }
  }

  /** In every run the list on screen is the newest one asked for exactly when that one has arrived and no other has
      arrived after it. */
  lemma {:induction false} NewestListIsShown(events: seq<Event>, states: seq<System>, k: nat)
    requires Runs(events, states) && k < |states|
    ensures states[k].shown == Some(states[k].lists - 1) <==> NewestIsLast(events, states, k)
    ensures states[k].shown.Some? ==> states[k].shown.value in states[k].heard
                                      && states[k].heard[states[k].shown.value] == states[k].view.snapshot
  {
    RunsKeepHeard(events, states, k);
    if k > 0 {
      NewestListIsShown(events, states, k - 1);
      var e, s := events[k - 1], states[k - 1];
      assert states[k] == Step(s, e) && Enabled(s, e);
      if e.ListAnswer? {
        assert NewestCameLast(events, states, k, k - 1) <==> e.list + 1 == s.lists;
      } else if e.Retry? || e.Mount? {
        forall i | 0 <= i < k && events[i].ListAnswer? ensures events[i].list + 1 < states[k].lists {
          assert Enabled(states[i], events[i]);
          ListsGrow(events, states, i, k - 1);
        }
      } else {
        SameLater(events, states, k - 1, k);
      }
    }
  }

  /** A run without a second mount. */
  predicate OneMount(events: seq<Event>) {
    forall i :: 0 <= i < |events| ==> !events[i].Unmount? && !events[i].Mount?
  }

  /** One list at a time: only the newest can be outstanding, and nothing was ever picked while none is shown. */
  predicate InTurn(s: System) {
    s.view.guard.alive && HeardOk(s)
    && (forall l :: 0 <= l < s.lists - 1 ==> l in s.heard)
    && (s.lists - 1 !in s.heard ==> s.shown == None && s.view.listError == "")
    && (s.view.selectedPath == None ==> s.view.diffError == "")
    && match s.shown
       case None => s.asked == map[] && s.view.selectedPath == None
       case Some(l) => l == s.lists - 1 && s.view.listError == ""
  }

  lemma {:induction false} OneMountStaysInTurn(events: seq<Event>, states: seq<System>, k: nat)
    requires Runs(events, states) && OneMount(events) && k < |states|
    ensures InTurn(states[k])
  {
    if k > 0 {
      OneMountStaysInTurn(events, states, k - 1);
      RunsKeepInv(events, states, k - 1);
      assert Enabled(states[k - 1], events[k - 1]) && states[k] == Step(states[k - 1], events[k - 1]);
    }
  }

  /** Within one mount at most one list is outstanding, the newest; the list on screen is the newest; and no diff error
      stands without a selected file, so a retry never finds one. */
  lemma {:induction false} OneMountIsOrderly(events: seq<Event>, states: seq<System>, k: nat)
    requires Runs(events, states) && OneMount(events) && k < |states|
    ensures var s := states[k];
            (forall l :: 0 <= l < s.lists && l !in s.heard ==> l == s.lists - 1)
            && (s.view.snapshot.Some? ==> s.shown == Some(s.lists - 1))
            && (s.view.selectedPath == None ==> s.view.diffError == "")
            && (Enabled(s, Retry) ==> s.view.diffError == "" && forall l :: 0 <= l < s.lists ==> l in s.heard)
  {
    OneMountStaysInTurn(events, states, k);
  }

  /** Event i brought this error for the list. */
  ghost predicate FailedWith(events: seq<Event>, k: nat, list: nat, error: string)
    requires k <= |events|
  {
    exists i :: 0 <= i < k && events[i] == ListError(list, error)
  }

  lemma {:induction false} StillFailed(events: seq<Event>, k: nat, list: nat, error: string)
    requires k < |events|
    ensures FailedWith(events, k, list, error) ==> FailedWith(events, k + 1, list, error)
    ensures events[k] == ListError(list, error) ==> FailedWith(events, k + 1, list, error)
  {
    if FailedWith(events, k, list, error) {
      var i :| 0 <= i < k && events[i] == ListError(list, error);
      assert 0 <= i < k + 1;
    }
  }

  /** Within one mount the list side shows what became of the newest list: nothing while it is awaited, its files,
      or the error it failed with. */
  lemma {:induction false} OneMountShowsItsList(events: seq<Event>, states: seq<System>, k: nat)
    requires Runs(events, states) && OneMount(events) && k < |states|
    ensures var s := states[k]; var v, newest := s.view, s.lists - 1;
            if newest !in s.heard then v.snapshot == None && v.listError == ""
            else match s.heard[newest]
              case Some(files) => v.snapshot == Some(files) && v.listError == ""
              case None => v.snapshot == None && FailedWith(events, k, newest, v.listError)
  {
    OneMountStaysInTurn(events, states, k);
    if k > 0 {
      hide FailedWith, Inv;
      OneMountShowsItsList(events, states, k - 1);
      OneMountStaysInTurn(events, states, k - 1);
      var s, e := states[k - 1], events[k - 1];
      assert states[k] == Step(s, e) && Enabled(s, e);
      StillFailed(events, k - 1, s.lists - 1, states[k].view.listError);
    }
  }

  /** The file that an event selects: the one picked, or the first of a list that arrives. */
  function Selection(e: Event): Option<File> {
    match e
    case Pick(file) => Some(file)
    case ListAnswer(_, files) => if files == [] then None else Some(files[0])
    case _ => None
  }

  /** Event i selected the file, and nothing was selected or reloaded since. */
  predicate SelectedLast(events: seq<Event>, k: nat, i: nat, file: File)
    requires i < k <= |events|
  {
    Selection(events[i]) == Some(file)
    && forall j :: i < j < k ==> Selection(events[j]) == None && !events[j].Retry? && !events[j].Mount?
  }

  lemma {:induction false} StepSelects(s: System, e: Event)
    ensures var after := Step(s, e);
            match Selection(e)
            case Some(file) =>
              after.view.selectedPath == Some(file.path)
              && after.view.diffMessage == (if file.binary then BINARY else "")
              && after.asked == if file.binary then s.asked else s.asked[after.view.guard.newest := file.path]
            case None =>
              if e.Retry? || e.Mount? then after.view.selectedPath == None
              else
                after.view.selectedPath == s.view.selectedPath && after.view.diffMessage == s.view.diffMessage
                && after.asked == s.asked
  {
  }

  /** In every run the selected path is that of the file selected last, with nothing reloaded since; a text file's load
      was asked for with the selection, and a binary one has its message instead. */
  lemma {:induction false} SelectionIsTheLast(events: seq<Event>, states: seq<System>, k: nat)
    returns (i: nat, file: File)
    requires Runs(events, states) && k < |states| && states[k].view.selectedPath.Some?
    ensures i < k && SelectedLast(events, k, i, file) && states[k].view.selectedPath == Some(file.path)
    ensures states[k].view.diffMessage == if file.binary then BINARY else ""
    ensures var t := states[i + 1].view.guard.newest;
            if file.binary then states[i + 1].asked == states[i].asked
            else t in states[k].asked && states[k].asked[t] == file.path
    decreases k
  {
    var s, e := states[k - 1], events[k - 1];
    assert states[k] == Step(s, e);
    StepSelects(s, e);
    hide Step, Enabled, Runs;
    if Selection(e).Some? {
      i, file := k - 1, Selection(e).value;
    } else {
      i, file := SelectionIsTheLast(events, states, k - 1);
    }
  }

  /** A new selection, which clears the diff's error. */
  predicate Selects(e: Event) {
    e.Pick? || (e.ListAnswer? && e.files != [])
  }

  /** Event i failed the newest load on screen, and nothing has been selected since. */
  predicate FailedLast(events: seq<Event>, states: seq<System>, k: nat, i: nat)
    requires i < k <= |events| && |states| == |events| + 1
  {
    events[i].Answer? && events[i].outcome.Failed? && events[i].outcome.error != ""
    && IsCurrent(states[i].view.guard, events[i].ticket)
    && forall j :: i < j < k ==> !Selects(events[j])
  }

  ghost predicate ErrorLeft(events: seq<Event>, states: seq<System>, k: nat)
    requires k <= |events| && |states| == |events| + 1
  {
    exists i :: 0 <= i < k && FailedLast(events, states, k, i)
  }

  lemma {:induction false} FailedEarlier(events: seq<Event>, states: seq<System>, m: nat, k: nat)
    requires k == m + 1 <= |events| && |states| == |events| + 1
    ensures ErrorLeft(events, states, k)
            <==> FailedLast(events, states, k, m) || (!Selects(events[m]) && ErrorLeft(events, states, m))
  {
    if i :| 0 <= i < m && FailedLast(events, states, k, i) {
      assert FailedLast(events, states, m, i);
    }
    if ErrorLeft(events, states, m) && !Selects(events[m]) {
      var i :| 0 <= i < m && FailedLast(events, states, m, i);
      assert FailedLast(events, states, k, i);
    }
  }

  lemma {:induction false} StepLeavesError(s: System, e: Event)
    requires Inv(s) && Enabled(s, e)
    ensures var failed := e.Answer? && e.outcome.Failed? && e.outcome.error != "" && IsCurrent(s.view.guard, e.ticket);
            Step(s, e).view.diffError != "" <==> failed || (!Selects(e) && s.view.diffError != "")
  {
  }

  /** In every run a diff error stands exactly when the newest load failed on screen and nothing was selected since. */
  lemma {:induction false} ErrorStands(events: seq<Event>, states: seq<System>, k: nat)
    requires Runs(events, states) && k < |states|
    ensures states[k].view.diffError != "" <==> ErrorLeft(events, states, k)
  {
    if k > 0 {
      hide Inv, Enabled, Step, Selects, ErrorLeft;
      ErrorStands(events, states, k - 1);
      RunsKeepInv(events, states, k - 1);
      assert states[k] == Step(states[k - 1], events[k - 1]) && Enabled(states[k - 1], events[k - 1]);
      StepLeavesError(states[k - 1], events[k - 1]);
      FailedEarlier(events, states, k - 1, k);
    } else {
      NoErrorYet(events, states);
    }
  }

  lemma {:induction false} NoErrorYet(events: seq<Event>, states: seq<System>)
    requires Runs(events, states)
    ensures !ErrorLeft(events, states, 0) && states[0].view.diffError == ""
  {
  }

  /** `loadFiles` leaves the diff's error alone: after a retry one stands, with no file selected, exactly when the
      newest load had failed on screen and nothing was selected since. */
  lemma {:induction false} ErrorOutlivesRetry(events: seq<Event>, states: seq<System>, k: nat)
    requires Runs(events, states) && k < |events| && events[k] == Retry
    ensures states[k + 1].view.selectedPath == None
    ensures states[k + 1].view.diffError != "" <==> ErrorLeft(events, states, k)
  {
    hide ErrorLeft;
    ErrorStands(events, states, k);
    assert states[k + 1] == Step(states[k], events[k]);
  }

  /** Both happen after a double mount. The list asked for first wins when it arrives last. */
  lemma {:induction false} OlderListCanWin(older: seq<File>, newer: seq<File>)
    returns (events: seq<Event>, states: seq<System>)
    ensures Runs(events, states) && events == [Unmount, Mount, ListAnswer(1, newer), ListAnswer(0, older)]
    ensures var s := states[|events|]; s.lists == 2 && s.shown == Some(0) && s.view.snapshot == Some(older)
  {
    events := [Unmount, Mount, ListAnswer(1, newer), ListAnswer(0, older)];
    var s1 := Step(INITIAL, events[0]);
    var s2 := Step(s1, events[1]);
    var s3 := Step(s2, events[2]);
    states := [INITIAL, s1, s2, s3, Step(s3, events[3])];
  }

  /** The newer list is shown, its first file's diff fails, the older list fails, and the retry leaves the diff's error
      with no file selected. */
  lemma {:induction false} ErrorWithoutAFile(file: File, error: string, listError: string)
    returns (events: seq<Event>, states: seq<System>)
    requires !file.binary && error != "" && listError != ""
    ensures Runs(events, states)
    ensures events == [Unmount, Mount, ListAnswer(1, [file]), Answer(4, Failed(error)), ListError(0, listError), Retry]
    ensures var v := states[|events|].view; v.selectedPath == None && v.diffError == error
  {
    events := [Unmount, Mount, ListAnswer(1, [file]), Answer(4, Failed(error)), ListError(0, listError), Retry];
    var s1 := Step(INITIAL, events[0]);
    var s2 := Step(s1, events[1]);
    var s3 := Step(s2, events[2]);
    var s4 := Step(s3, events[3]);
    var s5 := Step(s4, events[4]);
    states := [INITIAL, s1, s2, s3, s4, s5, Step(s5, events[5])];
  }
}
