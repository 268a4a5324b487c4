# opencraft models

Dafny models of the algorithms inside opencraft's user interface components and scripts, with proofs of what they
promise. Each module models one piece of the source.

- **Transcript list** (`Transcript`, `TranscriptBuilder`, `TranscriptLaws`, `TranscriptShape`, `TranscriptOrder`,
  `TranscriptChrome`, `TranscriptFold`, `TranscriptHistory`). The builder sweeps messages and turns with one cursor,
  pushes items and widens the last pad of a turn. `Transcript.Layout` says turn by turn what the list is; the sweep is
  proved to compute it. The other modules prove what a virtual list needs of it: no row lost, unique keys, folding as a
  filter, headers and closing items where there is something to say, and items that survive history loaded above them.
  A turn's tool-call groups enter as one flag (`shows`), a turn's label as "known and not negative".
- **Graph layout** (`GraphLayout`). Breadth-first layers with a growing queue, rows by barycenter (over the reals, with
  name order as a parameter), boxes, and edge kinds.
- **Config paths** (`ConfigPath`, `ConfigObjects`). `setPath` as a pure write with its laws, and as the loop over fresh
  heap objects. `Means` relates an object to the value it stands for.
- **Change tree** (`ChangeTree`, `ChangeTreeBuilder`, `ChangeTreeLeaves`, `ChangeTreePlaces`, `ChangeTreeCounters`,
  `ChangeTreePaths`, `ChangeTreeOrder`). The trie is built on the heap; a ghost map from directory chains to nodes is
  its invariant. `localeCompare` is a parameter, assumed a total preorder where order is claimed.
- **Newest request** (`Tickets`, `CommitDetail`, `GitPanel`). Each handler is split at its `await`; a run is any sequence
  of handler steps and answers, gated as the markup gates them: files are picked from the list shown, retry stands
  beside a list error. Each panel is a class whose methods are proved to take exactly the steps of the state
  machine.
- **Rollout report** (`Rollout`, `RolloutLaws`, `RolloutRecord`, `RolloutReader`, `RolloutScan`,
  `DirectArgv`). Log lines arrive as events; what the turns and counters must be is defined on the log alone.
- **File writers** (`PdfFile`, `PdfWriter`, `PdfLaws`, `PdfPages`, `PngFile`, `Numerals`). The writers are proved against
  small readers. zlib and CRC are parameters; only the decoding lemma assumes that decompression undoes compression.
- **Log lines** (`LogParser`, `LogLaws`) and **priority order** (`Priority`).
- `Sorting`, `Text`, `Whitespace`, `Sequences` and `Options` are shared.

Where a promise does not hold of the code, the model keeps the code and a lemma states exactly when it does hold:

- widening the window can fold a row that was on screen (`TranscriptLaws.WideningKeepsRow`);
- an opened turn can show a step above an earlier steer (`TranscriptOrder.RowsInTranscriptOrder`,
  `TranscriptOrder.SteeredStepsStandFirst`);
- an edge can skip a column when nothing leads to its source, although the comment says every edge moves one column
  right (`GraphLayout.ForwardIsOneColumn`);
- directory paths are unique for the relative paths git reports, and can collide only outside them, when a path starts
  with a separator (`ChangeTreePaths.FolderPathsAreUnique`, `ChangeTreePaths.PathsCanCollide`);
- a write through an array or a string drops its length, so that one diverging path reads differently, and writing back
  a value can change the config (`ConfigPath.OthersKept`, `ConfigPath.WritingBack`). The node editor goes down plain
  objects only, so both lie outside the paths it writes; on those every other path keeps its value
  (`ConfigPath.EditsKeepOthers`);
- list answers are not ticketed and a retry leaves the diff error alone. Within one mount neither shows
  (`CommitDetail.OneMountIsOrderly`). Where the mount effect runs twice, as `React.StrictMode` makes it in development
  (`frontend/src/main.tsx:74-80`), an older list can replace the newer and an error can outlive a retry; each is stated
  exactly over the order of events (`CommitDetail.NewestListIsShown`, `CommitDetail.ErrorOutlivesRetry`);
- leaving a repository does not retire a load, whose answer then lands unseen (`GitPanel.LeavingDoesNotRetire`,
  `GitPanel.LeftLoadLands`);
- a step in the list of all rows need not change the priority order (`Priority.StepAmongAllRows`,
  `Priority.StepPastADisabledRow`);
- values with other whitespace than single spaces come back changed (`LogLaws.AttrsComeBack`);
- a row that ends in a carriage return becomes a message as a whole, unless it has neither words nor attributes
  (`LogLaws.CarriageReturnHidesTheRow`). Nothing in the repository ends its log lines in one;
- a window raises on a turn whose start has no offset, which the application's own time stamps always carry
  (`RolloutLaws.ReportBalances`).

## Model

| member | source | states |
|---|---|---|
| `TranscriptBuilder.Builder.Build` | frontend/src/components/ChatView.tsx:2323-2541 | one sweep over the turns with one cursor over the messages leaves exactly the list `Layout` describes turn by turn |
| `TranscriptBuilder.Builder.EndTurn` | frontend/src/components/ChatView.tsx:2328-2331 | only the pad of the last item changes, to 16; an empty list stays empty |
| `TranscriptBuilder.Builder.PushRow` | frontend/src/components/ChatView.tsx:2332-2351 | one row item at the end, with its turn and pad; nothing for an index without a message |
| `TranscriptBuilder.Builder.PushTail` | frontend/src/components/ChatView.tsx:2358-2393 | the turn's closing item, or nothing for a turn with nothing left to say |
| `TranscriptBuilder.Builder.PartTurn` | frontend/src/components/ChatView.tsx:2413-2425 | a turn the window opens inside: every row of it from the window on, then its tail, the last pad widened |
| `TranscriptBuilder.Builder.WholeTurn` | frontend/src/components/ChatView.tsx:2426-2503 | a turn wholly in the window: asks, header, steps, rule, answered steers, reply, late steers, tail |
| `TranscriptBuilder.Builder.EndedRows` | frontend/src/components/ChatView.tsx:2482-2500 | an ended turn shows its steps only when open, and closes them with a rule only when it has a header and a reply |
| `TranscriptBuilder.Builder.SweepTurn` | frontend/src/components/ChatView.tsx:2400-2413 | one round of the sweep: loose rows before the turn, its block, and a cursor that leaves no gap |
| `TranscriptBuilder.Builder.SeamTurn` | frontend/src/components/ChatView.tsx:2511-2531 | a live turn without a row yet gets its header and tail at the end of the transcript |
| `TranscriptBuilder.Builder.LeftOver` | frontend/src/components/ChatView.tsx:2505-2510 | the trailing sweep adds the whole window when there are no turns and nothing otherwise |
| `TranscriptBuilder.TurnForIndex` | frontend/src/components/ChatView.tsx:1068-1085 | the binary search returns the last turn starting at or before the row, or nothing when none does |
| `TranscriptBuilder.SweptAll` | frontend/src/components/ChatView.tsx:2394-2412 | stopping the sweep early loses no turn: those not reached hold nothing |
| `TranscriptLaws.EveryRowOnce` | frontend/src/components/ChatView.tsx:2394-2510 | a message index is one row of the list when the window holds it and its turn does not fold it, and no row otherwise |
| `TranscriptLaws.RowsAreTheWindow` | frontend/src/components/ChatView.tsx:2394-2510 | the same over items: a row for i exists iff i is in the window and not folded, and never two |
| `TranscriptLaws.JumpFindsTheRow` | frontend/src/components/ChatView.tsx:2789-2820 | a jump widens the window to open at its target, or not at all when that is in it; the target has exactly one row, unless its turn folds it; a user row always has one |
| `TranscriptLaws.WideningKeepsRow` | frontend/src/components/ChatView.tsx:2743-2744 | a row on screen stays one after widening iff widening does not bring in the start of a turn that folds it |
| `TranscriptLaws.WideningCanFoldARow` | frontend/src/components/ChatView.tsx:1958-1991 | for any conversation of one message more than a window of 200 or more takes, asking, one step, and a tail with a reply: asking for earlier history folds the step that was shown loose |
| `TranscriptShape.LayoutOk` | frontend/src/components/ChatView.tsx:2394-2510 | each row belongs to the turn the binary search names, equal starts included, and each header, rule and tail to its own turn |
| `TranscriptShape.BlocksAndGaps` | frontend/src/components/ChatView.tsx:2328-2541 | items of different turns never interleave; header, rule, tail come in that order; the pad is 16 iff the item ends its turn's block or belongs to no turn |
| `TranscriptShape.KeysAreUnique` | frontend/src/components/ChatView.tsx:1517-1520 | no two items share a key, given distinct ids that do not collide across kinds |
| `TranscriptChrome.HeaderWhenThereIsWork` | frontend/src/components/ChatView.tsx:2470-2481 | a turn has one header iff the window holds it whole and it runs, knows its time or did work before its reply, or it runs without a row yet; the header counts the rows of work |
| `TranscriptChrome.RuleUnderAHeader` | frontend/src/components/ChatView.tsx:2489-2498 | a turn has one rule iff it has a header, has ended and has a reply |
| `TranscriptChrome.FooterWhenThereIsMoreToSay` | frontend/src/components/ChatView.tsx:2358-2393 | a turn with rows in the window, or running without one, has one closing item iff it left documents, its context was folded, it ended badly, or its time is known and no header tells it; with all of the item's fields |
| `TranscriptChrome.TimeIsToldOnce` | frontend/src/components/ChatView.tsx:2352-2370 | a turn that knows its time has a header or tells it in its closing item, never both but for a run without a row yet |
| `TranscriptChrome.FooterSpeaksForItsTurn` | frontend/src/components/ChatView.tsx:2362-2391 | the turn's own end and error come before the chat's, the chat speaks for its last turn once nothing runs, and only that turn can be resumed |
| `TranscriptChrome.TurnsReadInStages` | frontend/src/components/ChatView.tsx:2426-2503 | in every list a turn reads asks, header, work, rule, steers and reply, closing item, from the top down |
| `TranscriptOrder.RowsInTranscriptOrder` | frontend/src/components/ChatView.tsx:2319-2322 | row indices increase down the list iff every whole turn's asks lead it and no opened step follows a steer shown below it |
| `TranscriptOrder.SteeredStepsStandFirst` | frontend/src/components/ChatView.tsx:2447-2500 | the opened turn ask, steer, step, reply, whose rows do not |
| `TranscriptOrder.FoldedListsReadInOrder` | frontend/src/components/ChatView.tsx:2319-2322 | with leading asks and no ended turn open, row indices increase |
| `TranscriptFold.FoldIsAFilter` | frontend/src/components/ChatView.tsx:2447-2500 | opening an ended turn inserts its steps, as many as its header counts, right after the header, and leaves every other item as it was |
| `TranscriptFold.ToggleTwiceRestores` | frontend/src/components/ChatView.tsx:1974-1980 | two clicks on one header give back the open set and the list |
| `TranscriptHistory.HistoryKeepsWhatWasMeasured` | frontend/src/components/ChatView.tsx:1517-1520 | after widening or prepending older messages and turns, the items from the first turn begun in the window on are a suffix with the same keys and pads |
| `TranscriptHistory.LoadEarlierKeepsWhatWasMeasured` | frontend/src/components/ChatView.tsx:2742-2749 | so for the window `loadEarlier` sets: it opens one step higher, or at the top of the page loaded, and the measured items stay the end of the list |
| `TranscriptHistory.BlockShift` | frontend/src/components/ChatView.tsx:2394-2510 | one turn's block is the same block after its indices moved |
| `GraphLayout.BreadthFirst` | frontend/src/components/GraphView.tsx:71-85 | terminates with exactly the reachable ids, each at its shortest distance from the entry, edges to `__end__` not followed |
| `GraphLayout.Expand` | frontend/src/components/GraphView.tsx:75-85 | expanding one id keeps the queue free of repetitions and in order of layer |
| `GraphLayout.Complete` | frontend/src/components/GraphView.tsx:74-85 | a fully expanded queue holds every reachable id, and no shorter walk exists |
| `GraphLayout.FillLayers` | frontend/src/components/GraphView.tsx:86-90 | unreachable nodes get layer 0; the last layer is the greatest in use |
| `GraphLayout.BuildColumns` | frontend/src/components/GraphView.tsx:94-100 | each column lists its nodes in graph order |
| `GraphLayout.BuildPreds` | frontend/src/components/GraphView.tsx:101-108 | each id's predecessors in edge order, none for the end marker |
| `GraphLayout.RankColumn` | frontend/src/components/GraphView.tsx:110-118 | a column's ids, repeated or not, get different rows below its size, in the order of the mean row of their placed predecessors, ties by name; earlier columns keep their rows |
| `GraphLayout.RankColumns` | frontend/src/components/GraphView.tsx:109-119 | every column is ranked from the rows of the columns left of it |
| `GraphLayout.PlaceNodes` | frontend/src/components/GraphView.tsx:71-141 | the finished map: layers, ranked rows, coordinates, and the end marker where an edge leads to it |
| `GraphLayout.LeftToRight` | frontend/src/components/GraphView.tsx:66-70 | a node stands further right iff its layer is greater and lower iff its row is; columns and rows start at the padding, one box and a gap apart |
| `GraphLayout.EntryIsLeftmost` | frontend/src/components/GraphView.tsx:66-67 | no box starts left of the entry's |
| `GraphLayout.EndIsRightmost` | frontend/src/components/GraphView.tsx:132-138 | the end marker starts right of every node's box, in the middle of its cell |
| `GraphLayout.EndIsBelow` | frontend/src/components/GraphView.tsx:120 | and one row below the last node of the rightmost column |
| `GraphLayout.RowsByPull` | frontend/src/components/GraphView.tsx:109-119 | within a column, nodes nothing further left leads to come first by name, then the others by the mean row of the edges into them from the left, ties by name |
| `GraphLayout.NoOverlap` | frontend/src/components/GraphView.tsx:122-139 | the boxes of any two ids of the map are apart |
| `GraphLayout.MarkerPastNodes` | frontend/src/components/GraphView.tsx:91-138 | the end marker is alone, one column past every node |
| `GraphLayout.RowsFillColumn` | frontend/src/components/GraphView.tsx:117-118 | with distinct node ids the rows of a column are exactly 0 to its size |
| `GraphLayout.ForwardIsOneColumn` | frontend/src/components/GraphView.tsx:884-888 | an edge out of a reachable node goes at most one column right, "forward" is exactly one; an edge skips a column iff nothing leads to its source and its target is two or more away |
| `GraphLayout.KindIsDirection` | frontend/src/components/GraphView.tsx:884-888 | an edge is drawn back, sideways or forward iff it leads left, stays in its column or leads right |
| `GraphLayout.AnEdgeCanSkipAColumn` | frontend/src/components/GraphView.tsx:86-90 | a graph with an edge that runs from column 0 to column 2 in every layout of it |
| `ConfigObjects.SetPath` | frontend/src/components/GraphView.tsx:449-465 | one new object for each step, holding the very references of the object it copies except for its own step; the config so built means what the pure write gives, and no object that existed before is modified |
| `ConfigObjects.Step` | frontend/src/components/GraphView.tsx:456-461 | one round: the field is copied and the copy put in its place; the copy means what the spread value meant |
| `ConfigPath.ReadsBack` | frontend/src/components/GraphView.tsx:449-465 | reading a path after writing it gives the value iff the path is not empty |
| `ConfigPath.OthersKept` | frontend/src/components/GraphView.tsx:449-465 | a diverging path reads as before iff it is not the length of an array or a string that the written path runs through |
| `ConfigPath.EditsKeepOthers` | frontend/src/components/GraphView.tsx:539-566 | on the paths the editor writes, through plain objects or absent ones, every diverging path reads as before |
| `ConfigPath.EditsStayOpen` | frontend/src/components/GraphView.tsx:539-566 | after such a write a diverging such path is one still |
| `ConfigPath.LastWriteWins` | frontend/src/components/GraphView.tsx:449-465 | the second of two writes to a path leaves no trace of the first |
| `ConfigPath.WritesCommute` | frontend/src/components/GraphView.tsx:449-465 | writes to diverging paths commute |
| `ConfigPath.WritingBack` | frontend/src/components/GraphView.tsx:458-459 | writing back what is there changes nothing iff the path runs through plain objects to a key that is set |
| `ConfigPath.WritingBackAnElement` | frontend/src/components/GraphView.tsx:458-459 | writing back the element of an array makes it an object without a length |
| `ChangeTreeBuilder.BuildChangeTree` | frontend/src/components/GitPanel.tsx:1115-1131 | the trie grown on the heap and read back is the tree of the list |
| `ChangeTreeBuilder.Insert` | frontend/src/components/GitPanel.tsx:1118-1129 | inserting one change turns the trie of a list into the trie of the longer list, touching its own nodes only |
| `ChangeTreeBuilder.Descend` | frontend/src/components/GitPanel.tsx:1121-1126 | one step down: the subdirectory found or created, every other directory as it was |
| `ChangeTreeBuilder.ReadDir` | frontend/src/components/GitPanel.tsx:1133-1159 | reading a directory gives its subdirectories by name with their counters, then its files by path |
| `ChangeTreeBuilder.AggregateInto` | frontend/src/components/GitPanel.tsx:1161-1185 | the counters raised child by child are the sum over the children |
| `ChangeTreeLeaves.NothingLostOrInvented` | frontend/src/components/GitPanel.tsx:1115-1159 | the leaves are the entries as a multiset |
| `ChangeTreePlaces.EveryFileInItsFolder` | frontend/src/components/GitPanel.tsx:1117-1129 | every leaf sits under the directory chain of its own path |
| `ChangeTreeCounters.CountersAreSums` | frontend/src/components/GitPanel.tsx:1161-1185 | each of a directory's six counters is the sum over all entries below it |
| `ChangeTreeCounters.FoldersShowTheirChanges` | frontend/src/components/GitPanel.tsx:1161-1185 | each folder shows how many changes below it are staged, unstaged and untracked without the unmerged, how many are unmerged, and the lines of those neither binary nor untracked |
| `ChangeTreePlaces.SamePath` | frontend/src/components/GitPanel.tsx:1138-1142 | two directory chains get one path iff they agree past their leading empty names |
| `ChangeTreePaths.FolderPathsAreUnique` | frontend/src/components/GitPanel.tsx:1138-1142 | the directory paths of a tree are distinct iff no two directory chains of its entries agree past their leading empty names |
| `ChangeTreePaths.RelativePathsAreUnique` | frontend/src/components/GitPanel.tsx:1138-1142 | so they are for paths that do not start with a separator |
| `ChangeTreePaths.PathsCanCollide` | frontend/src/components/GitPanel.tsx:1138-1142 | they are not in the tree of a/x and /a/y |
| `ChangeTreeOrder.OrderedLikeAnExplorer` | frontend/src/components/GitPanel.tsx:1112-1159 | folders first by name, then files by path |
| `Sorting.SortSorts` | frontend/src/components/GitPanel.tsx:1134-1157 | the sort arranges its input under any total preorder |
| `Sorting.SortedUnique` | frontend/src/components/GitPanel.tsx:1134-1157 | under a total order the sorted arrangement does not depend on the algorithm |
| `Text.SplitJoin` | frontend/src/components/GitPanel.tsx:1118 | splitting a join of pieces without the separator gives the pieces |
| `Text.JoinSplit` | frontend/src/components/GitPanel.tsx:1118 | joining the pieces of a split gives the string |
| `Tickets.LatestRequest.Begin` | frontend/src/lib/useLatest.ts:57-60 | a new ticket, the only current one from then on |
| `Tickets.LatestRequest.Retire` | frontend/src/lib/useLatest.ts:63-65 | no ticket issued so far stays current |
| `Tickets.LatestRequest.Unmount` | frontend/src/lib/useLatest.ts:46-53 | after unmount no ticket is current |
| `CommitDetail.Modal.SelectFile` | frontend/src/components/CommitDetailModal.tsx:59-73 | the synchronous part: new ticket, cleared view, binary message or spinner, and a load to await for a text file only |
| `CommitDetail.Modal.Settle` | frontend/src/components/CommitDetailModal.tsx:74-83 | an answer writes the view only when its ticket is current, and then ends the spinner |
| `CommitDetail.Modal.LoadFiles` | frontend/src/components/CommitDetailModal.tsx:88-97 | a retry retires the loads and clears all but the diff error |
| `CommitDetail.Modal.ListLoaded` | frontend/src/components/CommitDetailModal.tsx:98-101 | a list answer is shown and its first file selected |
| `CommitDetail.Modal.ListFailed` | frontend/src/components/CommitDetailModal.tsx:102-104 | a list error is shown and nothing else changes, whichever list it was |
| `CommitDetail.StepKeepsInv` | frontend/src/components/CommitDetailModal.tsx:59-105 | every handler step keeps body, error, message and spinner those of the newest ticket |
| `CommitDetail.ShownDiffIsSelected` | frontend/src/components/CommitDetailModal.tsx:53-56 | in every run a shown diff answered the newest load, which was for `selectedPath`; the spinner turns iff that load is unsettled |
| `CommitDetail.SelectionIsTheLast` | frontend/src/components/CommitDetailModal.tsx:59-101 | in every run the selected path is that of the file picked last, or of the first file of a list that arrived, with no reload since; a text file's load was asked for with it, a binary one shows its message |
| `CommitDetail.OneConditionAtATime` | frontend/src/components/CommitDetailModal.tsx:59-85 | a selected file is exactly one of loading, shown, failed, binary |
| `CommitDetail.LateAnswersAreDropped` | frontend/src/components/CommitDetailModal.tsx:76-82 | an answer changes the view iff it is the newest load's and arrives on screen |
| `CommitDetail.AnyOrderOfArrival` | frontend/src/components/CommitDetailModal.tsx:74-83 | the same replies to any number of different loads leave the same state in whatever order they arrive |
| `CommitDetail.OneMountIsOrderly` | frontend/src/components/CommitDetailModal.tsx:88-107 | in every run without a second mount at most one list is outstanding, the newest; the list shown is the newest asked for; and a retry finds no diff error |
| `CommitDetail.OneMountShowsItsList` | frontend/src/components/CommitDetailModal.tsx:88-105 | in such a run the list side shows what became of the newest list: nothing while awaited, its files, or its error |
| `CommitDetail.NewestListIsShown` | frontend/src/components/CommitDetailModal.tsx:98-104 | in every run the list shown is the newest asked for iff that one has arrived and no other after it |
| `CommitDetail.ErrorStands` | frontend/src/components/CommitDetailModal.tsx:59-104 | in every run a diff error stands iff the newest load failed on screen and nothing was selected since |
| `CommitDetail.ErrorOutlivesRetry` | frontend/src/components/CommitDetailModal.tsx:88-97 | in every run a diff error outlives a retry iff it stood, by that condition, when retry was pressed |
| `CommitDetail.ErrorWithoutAFile` | frontend/src/components/CommitDetailModal.tsx:88-107 | after a double mount: the newer list arrives, its first diff fails, the older list fails, and a retry leaves the diff error with no file selected |
| `CommitDetail.OlderListCanWin` | frontend/src/components/CommitDetailModal.tsx:98-107 | after a double mount: the list asked for first arrives last and replaces the newer one |
| `GitPanel.Panel.LoadDiff` | frontend/src/components/GitPanel.tsx:357-381 | a pick takes a ticket, selects the entry, and shows its hint or asks for its first side |
| `GitPanel.Panel.LoadSide` | frontend/src/components/GitPanel.tsx:322-341 | a side load runs on the ticket handed in or on a new one |
| `GitPanel.Panel.SwitchSide` | frontend/src/components/GitPanel.tsx:638-641 | the side switch remembers the side and reloads the selected entry |
| `GitPanel.Panel.Settle` | frontend/src/components/GitPanel.tsx:342-353 | an answer is written only on the current ticket |
| `GitPanel.Panel.CloseDiff` | frontend/src/components/GitPanel.tsx:295-301 | closing retires the load in flight |
| `GitPanel.Panel.LeaveRepo` | frontend/src/components/GitPanel.tsx:192-195 | leaving the repository clears the modal without a ticket |
| `GitPanel.StepKeepsInv` | frontend/src/components/GitPanel.tsx:295-381 | every step keeps the detail that of the newest ticket |
| `GitPanel.ShownBodyIsTheEntrys` | frontend/src/components/GitPanel.tsx:128-131 | in every run a body shown with a selected entry was loaded for that entry on the newest ticket: of an entry with two halves for the side the switch shows, of any other for the staged side iff it is staged |
| `GitPanel.QuestionsAskTheRightSide` | frontend/src/components/GitPanel.tsx:357-381 | every load was begun by a pick or a switch, for the side the switch then showed when the entry has two halves, else for the staged side iff the entry is staged |
| `GitPanel.HintsSayWhy` | frontend/src/components/GitPanel.tsx:322-381 | an open modal shows a hint iff the entry is untracked, unmerged or binary, in that order, each with its own words |
| `GitPanel.BlankMeansLoading` | frontend/src/components/GitPanel.tsx:322-381 | an open modal is blank iff the newest load is unsettled |
| `GitPanel.LeavingDoesNotRetire` | frontend/src/components/GitPanel.tsx:192-195 | in every run, with no entry selected, a detail is there iff the repository was left, the newest load was answered on screen after that, and nothing was picked, closed or left since |
| `GitPanel.LeftLoadLands` | frontend/src/components/GitPanel.tsx:192-195 | the run pick, leave, answer, whose body lands with no entry selected |
| `GitPanel.AnyOrderOfArrival` | frontend/src/components/GitPanel.tsx:342-353 | the same replies to any number of different loads leave the same state in whatever order they arrive |
| `RolloutReader.ReadFile` | scripts/rounds-review.py:240-344 | the loop over the lines and the window filter compute the report the line-by-line specification gives, and raise where it does |
| `RolloutReader.Reader.Feed` | scripts/rounds-review.py:246-325 | one line changes turns, current turn, pending map and counters as specified, and no closed turn |
| `RolloutReader.Reader.FeedResult` | scripts/rounds-review.py:287-321 | one result: compaction, orphan, empty or sized |
| `RolloutReader.Reader.KeepWindow` | scripts/rounds-review.py:329-344 | the turns of the window in order; undated turns counted when a bound is given; it raises iff a bound is given and some start has no offset |
| `RolloutLaws.FailsExactlyThere` | scripts/rounds-review.py:251-321 | the five-field unpack never fails: the reader raises iff some line is JSON but no object, or a badly typed item inside a turn; before the first turn such an item is skipped |
| `RolloutLaws.StepKeepsPending` | scripts/rounds-review.py:273-321 | the pending map holds, for each id, exactly the last unresolved call of the current turn under it |
| `RolloutLaws.ResultGoesToLatest` | scripts/rounds-review.py:287-321 | a result resolves the last call under its id if that is unresolved; otherwise it is counted and changes no call |
| `RolloutLaws.StepBalances` | scripts/rounds-review.py:256-325 | every line keeps turns, statuses and result counters in balance with the log |
| `RolloutLaws.EndBalances` | scripts/rounds-review.py:240-328 | turns built are the turns started, in order; open ones are the unfinished; results are sized, empty, compactions or orphans; calls are resolved, empty or waiting |
| `RolloutRecord.TurnsAreTheLog` | scripts/rounds-review.py:240-328 | the turns read are the log's own stretches from start to start or end, in order: time, messages, thoughts, how it was closed, and each call with what the first result under its id said, unless another call under that id came first |
| `RolloutRecord.CountersAreTheLog` | scripts/rounds-review.py:250-311 | bad lines, empty results, compactions and orphans rise by exactly the events of the log that count as such: a result no call waits for is a compaction iff its id starts with "compact-" |
| `RolloutRecord.ReportIsTheLog` | scripts/rounds-review.py:240-344 | the report against the log alone: kept turns are those with a start inside both bounds, in order, or without a start when there is no bound |
| `RolloutLaws.ReportBalances` | scripts/rounds-review.py:240-344 | the report of a whole file raises iff a line does or a window is given and a turn started without an offset; otherwise kept, undated and outside turns are the turns started, and the counters balance whatever the window |
| `RolloutLaws.WindowKeeps` | scripts/rounds-review.py:329-344 | a turn is kept as often as read iff the window holds it |
| `RolloutScan.ScanTurns` | scripts/rounds-review.py:379-418 | per tool, the counters over a corpus are the counts of its calls, errors and excerpts and the list of its result lengths in order; reads per limit; direct, shell, multi-line, cd and sleeping commands; repeats are those beyond the first of their key in a turn |
| `RolloutScan.CompoundCommandsNeedAShell` | scripts/rounds-review.py:395-407 | multi-line commands and those that change directory first are at most as many as shell commands |
| `RolloutScan.CountersAgree` | scripts/rounds-review.py:389-402 | direct and shell commands add up to the exec calls, windowed and whole reads to the read calls |
| `RolloutScan.NoRepeats` | scripts/rounds-review.py:380-388 | a turn counts no repeat iff its calls have distinct keys |
| `DirectArgv.DirectIsBareWords` | scripts/rounds-review.py:133-144 | a command is direct iff it is a single-space join of one or more non-empty words of safe characters |
| `DirectArgv.WordsAreUnique` | scripts/rounds-review.py:133-144 | that decomposition is unique and equals the split, at whitespace or at single spaces |
| `Whitespace.WordsOfJoin` | scripts/rounds-review.py:141-143 | the words of a single-space join are the words joined |
| `PdfWriter.Writer.Build` | scripts/mem-fixture.py:174-240 | the appended bytes are the specified file, and ids 1 to 3+3n are each written once, in order |
| `PdfWriter.Writer.Put` | scripts/mem-fixture.py:184-188 | an object goes to the end of the bytes and its offset is noted |
| `PdfWriter.Writer.PutTable` | scripts/mem-fixture.py:230-233 | the table lists the noted offsets in id order |
| `PdfLaws.EveryObjectIsFound` | scripts/mem-fixture.py:229-239 | a reader following startxref and the 20-byte entries finds `i 0 obj`, its body and its end marker at entry i, for every list of bodies and every i (1..3+3n for n pages), when offsets are below 10^10 (ISO 32000-1, section 7.5.4) |
| `PdfLaws.BodiesOf` | scripts/mem-fixture.py:177-227 | objects 4+3i to 6+3i are page i, its drawing and its image |
| `PdfLaws.TableInLine` | scripts/mem-fixture.py:232-233 | the table is 20 bytes an entry iff every offset is below 10^10 |
| `PdfLaws.ObjectsTile` | scripts/mem-fixture.py:184-227 | the objects follow one another from the header to the table |
| `PdfLaws.StreamIsRead` | scripts/mem-fixture.py:214-227 | a stream's /Length is the number of bytes between its markers, whatever the bytes (ISO 32000-1, section 7.3.8) |
| `PdfLaws.EveryStreamIsRead` | scripts/mem-fixture.py:195-239 | through the table, the content and image objects of every page give back its drawing and its image |
| `PdfPages.PagesAreListed` | scripts/mem-fixture.py:177-194 | from the trailer the root leads to the catalog, the catalog to the pages object, and that lists the page ids in order, whatever their number |
| `PdfPages.PageLeadsToItsStreams` | scripts/mem-fixture.py:195-227 | the i-th page listed names a content stream that is its drawing and an image stream that is its image, of its width and height |
| `PdfPages.DrawingScales` | scripts/mem-fixture.py:200-203 | the drawing scales the image to its width and height and ends with the caption |
| `Numerals.PaddedWidth` | scripts/mem-fixture.py:233 | a padded numeral has the width asked for iff the number fits |
| `Numerals.ReadsPadded` | scripts/mem-fixture.py:233 | reading a padded numeral gives the number |
| `PngFile.PngBytes` | scripts/mem-fixture.py:74-85 | the appended scanlines and packed chunks are the specified file; it fails where a size does not pack |
| `PngFile.FileIsThreeChunks` | scripts/mem-fixture.py:69-85 | a chunk reader splits the file into exactly IHDR, IDAT and IEND with matching lengths and check fields (RFC 2083, section 3.2, which also caps lengths at 2^31 - 1; writer and reader go to 2^32 - 1); the writer fails iff a size exceeds 32 bits |
| `PngFile.ChunkIsRead` | scripts/mem-fixture.py:69-71 | a chunk in front of any bytes is read as itself |
| `PngFile.UnpackBigEndian` | scripts/mem-fixture.py:70-71 | reading the k big-endian bytes of a number below 256^k gives the number |
| `PngFile.DecodesToThePixels` | scripts/mem-fixture.py:74-85 | inflating and dropping the zero filter bytes gives back size and pixels iff the buffer holds 3wh bytes (RFC 2083, section 6.2) |
| `LogParser.ParseLog` | frontend/src/components/LogViewer.tsx:14-46 | the loops over lines, tokens and matches compute the specified entries |
| `LogParser.ReadAttrs` | frontend/src/components/LogViewer.tsx:35-42 | the stateful pattern cursor finds the leftmost matches one after another |
| `LogParser.SplitMessage` | frontend/src/components/LogViewer.tsx:26-31 | the message is the tokens before the first that looks like an attribute |
| `LogLaws.OneEntryPerLine` | frontend/src/components/LogViewer.tsx:16-18 | the k-th entry is the k-th line with more than whitespace, and there are no others |
| `LogLaws.RowParses` | frontend/src/components/LogViewer.tsx:19-43 | a rendered row gives back time, level, message, and its attributes, quoted or bare, in order with runs of whitespace in values as one space |
| `LogLaws.AttrsComeBack` | frontend/src/components/LogViewer.tsx:25-42 | all attributes come back unchanged iff whitespace in their values is only single spaces |
| `LogLaws.TwoSpacesComeBackAsOne` | frontend/src/components/LogViewer.tsx:25-42 | a row with two spaces in a value, which come back as one |
| `LogLaws.LogRoundTrip` | frontend/src/components/LogViewer.tsx:14-46 | a log of rendered rows gives one entry per row |
| `LogLaws.UnescapeEscape` | frontend/src/components/LogViewer.tsx:41 | unescaping undoes escaping quotes and backslashes |
| `LogLaws.SqueezeEscape` | frontend/src/components/LogViewer.tsx:35-41 | joining tokens with single spaces and escaping commute |
| `LogLaws.ScanTexts` | frontend/src/components/LogViewer.tsx:35-42 | scanning rendered attributes, quoted or bare, gives the attributes |
| `LogLaws.ValueComesBack` | frontend/src/components/LogViewer.tsx:35-41 | a value's text, in quotes or bare, reads as the value |
| `LogLaws.CarriageReturnHidesTheRow` | frontend/src/components/LogViewer.tsx:19-23 | a rendered row with a carriage return behind it parses as without iff it has no words and no attributes; any other becomes a message as a whole |
| `Priority.Move` | frontend/src/components/ConfigPage.tsx:1003-1016 | rows are permuted; with distinct ids exactly the two neighbours of the enabled order swap and disabled rows keep their places; out of range nothing changes |
| `Priority.MoveInstance` | frontend/src/components/ConfigPage.tsx:1085-1094 | the row and its neighbour among all rows swap, or nothing changes; with distinct ids the priority order changes iff both are enabled, and then by one swap of two neighbours in it |
| `Priority.SwapMovesRanks` | frontend/src/components/ConfigPage.tsx:879 | swapping two enabled places swaps exactly their ranks in the enabled view |
| `Priority.StepAmongAllRows` | frontend/src/components/ConfigPage.tsx:1082-1094 | a step among all rows swaps two neighbours of the priority order iff both rows are enabled, and leaves it alone otherwise |
| `Priority.StepPastADisabledRow` | frontend/src/components/ConfigPage.tsx:1082-1094 | an enabled row stepping past a disabled one, which leaves the priority order alone |
| `Priority.StepsBackAndForth` | frontend/src/components/ConfigPage.tsx:1085-1094 | the opposite step restores the rows |

## Left out

- JSX, translation, popovers, scrolling, measurement and animation frames: no claim to decide.
- `groupToolCalls` and `workedForLabel` bodies: the list only asks whether a row shows something and whether there is a label.
- The peek range, the outline and the message window's reset on a conversation switch: one assignment each.
- Rounding of the barycenter: rows are averaged over the reals.
- GraphLayout.RankColumn: for an id listed twice says how it stands among the others, not which of its places counts, because node ids are distinct in a loaded graph.
- GraphLayout.RowsFillColumn: holds for distinct node ids only, because a repeated id has one row for several places.
- ConfigObjects.SetPath: leaves out inherited properties, the key `__proto__` and the order of keys, because objects are maps of own fields; an array's length is how many elements it has.
- The engine's sort: modelled as a stable insertion sort, which any stable sort agrees with under a total order.
- `setState` batching, stale closures and other commits of the modal: each handler's synchronous part is one step, for one commit.
- The status poll, write operations and the pull request view of the Git panel: they do not touch the diff modal's state, except for leaving the repository.
- Log fields of other JSON types than the reader expects, and lines that are JSON but no object: two events, one for a line on which the reader raises anywhere and one for an item on which it raises inside a turn.
- Dates and JSON themselves: event times are absent or integers with or without an offset, arguments a canonical dump with the command text and a window flag.
- RolloutScan.ScanTurns: leaves out edits, rereads, verification runs and the calls before and after writes, because they are counts over file sets outside the call loop; the `sleep` pattern and a read's limit come with the arguments, limits being finite numbers.
- Fonts, drawing operators and caption escaping in the PDF: bodies are text; only their place and stream lengths are claimed.
- Negative image sizes: widths and heights are natural numbers.
- PngFile.DecodesToThePixels: assumes decompression undoes the compression of the scanlines, because zlib is not part of this model.
- UTF-16 surrogates in log lines and strings: a character is one unit.
- Go packages, SQLite, the network, Objective-C windows and the end-to-end mocks: not part of this model.
