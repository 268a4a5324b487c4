/** Every directory's counters are the sums over everything below it. */
module ChangeTreeCounters {
  import opened ChangeTree
  import Sorting
  import opened ChangeTreeLeaves

  function Sum(entries: seq<Change>): Counts {
    if entries == [] then NOTHING else Plus(Sum(entries[..|entries| - 1]), OfEntry(entries[|entries| - 1]))
  }

  lemma {:induction false} SumConcat(a: seq<Change>, b: seq<Change>)
    ensures Sum(a + b) == Plus(Sum(a), Sum(b))
    decreases |b|
  {
    hide OfEntry;
    if b == [] {
      assert a + b == a;
    } else {
      assert (a + b)[..|a + b| - 1] == a + b[..|b| - 1];
      SumConcat(a, b[..|b| - 1]);
    }
  }

  /** Every directory's counters are the sums over all changes below it. */
  ghost predicate Counted(nodes: seq<Node>) {
    forall j :: 0 <= j < |nodes| && nodes[j].Dir? ==>
      nodes[j].counts == Sum(Leaves(nodes[j].children)) && Counted(nodes[j].children)
  }

  lemma {:induction false} AggregateIsSum(nodes: seq<Node>)
    requires Counted(nodes)
    ensures Aggregate(nodes) == Sum(Leaves(nodes))
  {
    if nodes != [] {
      var front, last := nodes[..|nodes| - 1], nodes[|nodes| - 1];
      AggregateIsSum(front);
      SumConcat(Leaves(front), LeavesOf(last));
      if last.File? { assert Sum([last.entry]) == Plus(Sum([]), OfEntry(last.entry)); }
    }
  }

  lemma {:induction false} ForestCounted(entries: seq<Change>, p: seq<string>, base: string,
                                         collate: (string, string) -> bool)
    ensures Counted(Forest(entries, p, base, collate))
    decreases Max(0, Depth(entries) - |p|), 1, 0
  {
    SortedNames(entries, p, collate);
    var dirs := DirNodes(entries, p, base, collate, Sorting.Sort(NamesAt(entries, p), collate));
    var files := FileNodes(Sorting.Sort(FilesAt(entries, p), ByPath(collate)));
    DirsCounted(entries, p, base, collate, Sorting.Sort(NamesAt(entries, p), collate));
    OnlyFiles(Sorting.Sort(FilesAt(entries, p), ByPath(collate)));
    CountedConcat(dirs, files);
  }

  lemma {:induction false} CountedConcat(a: seq<Node>, b: seq<Node>)
    requires Counted(a) && Counted(b)
    ensures Counted(a + b)
  {
  }

  lemma {:induction false} OnlyFiles(files: seq<Change>)
    ensures forall j :: 0 <= j < |files| ==> FileNodes(files)[j] == File(files[j])
  {
    if files != [] { OnlyFiles(files[..|files| - 1]); }
  }

  lemma {:induction false} DirsCounted(entries: seq<Change>, p: seq<string>, base: string,
                                       collate: (string, string) -> bool, names: seq<string>)
    requires forall n :: n in names ==> n in NamesAt(entries, p)
    ensures Counted(DirNodes(entries, p, base, collate, names))
    decreases Max(0, Depth(entries) - |p|), 0, |names|
  {
    if names != [] {
      var front, name := names[..|names| - 1], names[|names| - 1];
      NamesAreShallow(entries, p, name);
      DirsCounted(entries, p, base, collate, front);
      ForestCounted(entries, p + [name], SubPath(base, name), collate);
      AggregateIsSum(Forest(entries, p + [name], SubPath(base, name), collate));
    }
  }

  lemma {:induction false} CountersAreSums(entries: seq<Change>, collate: (string, string) -> bool)
    ensures Counted(Tree(entries, collate))
    ensures Aggregate(Tree(entries, collate)) == Sum(Leaves(Tree(entries, collate)))
  {
    ForestCounted(entries, [], "", collate);
    AggregateIsSum(Tree(entries, collate));
  }

  // ---- the counters in the changes' own fields ----

  /** Where a list of changes holds one of a kind. */
  ghost function Where(s: seq<Change>, kind: Change -> bool): set<nat> {
    set i | 0 <= i < |s| && kind(s[i])
  }

  /** The lines of the changes that have any to count, added up. */
  function Lines(s: seq<Change>, lines: Change -> int): int {
    if s == [] then 0
    else
      var e := s[|s| - 1];
      Lines(s[..|s| - 1], lines) + if e.binary || e.untracked then 0 else lines(e)
  }

  /** What a directory shows for the changes below it. */
  ghost predicate Shows(counts: Counts, leaves: seq<Change>) {
    counts.staged == |Where(leaves, (e: Change) => e.staged && !e.unmerged)|
    && counts.unstaged == |Where(leaves, (e: Change) => e.unstaged && !e.unmerged)|
    && counts.untracked == |Where(leaves, (e: Change) => e.untracked && !e.unmerged)|
    && counts.unmerged == |Where(leaves, (e: Change) => e.unmerged)|
    && counts.additions == Lines(leaves, (e: Change) => e.additions)
    && counts.deletions == Lines(leaves, (e: Change) => e.deletions)
  }

  lemma {:induction false} WhereNext(s: seq<Change>, kind: Change -> bool)
    requires s != []
    ensures |Where(s, kind)| == |Where(s[..|s| - 1], kind)| + if kind(s[|s| - 1]) then 1 else 0
  {
    var front, n := s[..|s| - 1], |s| - 1;
    if kind(s[n]) {
      assert Where(s, kind) == Where(front, kind) + {n};
    } else {
      assert Where(s, kind) == Where(front, kind);
    }
  }

  lemma {:induction false} SumShows(leaves: seq<Change>)
    ensures Shows(Sum(leaves), leaves)
  {
    if leaves != [] {
      hide Where;
      SumShows(leaves[..|leaves| - 1]);
      WhereNext(leaves, (e: Change) => e.staged && !e.unmerged);
      WhereNext(leaves, (e: Change) => e.unstaged && !e.unmerged);
      WhereNext(leaves, (e: Change) => e.untracked && !e.unmerged);
      WhereNext(leaves, (e: Change) => e.unmerged);
    }
  }

  ghost predicate AllShow(nodes: seq<Node>) {
    forall j :: 0 <= j < |nodes| && nodes[j].Dir? ==>
      Shows(nodes[j].counts, Leaves(nodes[j].children)) && AllShow(nodes[j].children)
  }

  lemma {:induction false} CountedShows(nodes: seq<Node>)
    requires Counted(nodes)
    ensures AllShow(nodes)
  {
    hide Shows;
    forall j | 0 <= j < |nodes| && nodes[j].Dir?
      ensures Shows(nodes[j].counts, Leaves(nodes[j].children)) && AllShow(nodes[j].children)
    {
      SumShows(Leaves(nodes[j].children));
      CountedShows(nodes[j].children);
    }
  }

  /** Every folder shows how many of the changes below it are staged, unstaged and untracked, not counting the unmerged,
      how many are unmerged, and the lines of those that are neither binary nor untracked. */
  lemma {:induction false} FoldersShowTheirChanges(entries: seq<Change>, collate: (string, string) -> bool)
    ensures AllShow(Tree(entries, collate))
  {
    CountersAreSums(entries, collate);
    CountedShows(Tree(entries, collate));
  }
}
