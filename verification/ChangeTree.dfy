/** The tree of changed files: what it is for a list of changes, and what it keeps of that list. */
module ChangeTree {
  import opened Sequences
  import opened Text
  import Sorting

  datatype Change = Change(
    path: string,
    staged: bool,
    unstaged: bool,
    untracked: bool,
    unmerged: bool,
    binary: bool,
    additions: int,
    deletions: int)

  datatype Counts = Counts(additions: int, deletions: int, staged: int, unstaged: int, untracked: int, unmerged: int)

  datatype Node =
    | Dir(name: string, path: string, children: seq<Node>, counts: Counts)
    | File(entry: Change)

  const SLASH: char := '/'

  // ---- directories of a list of changes ----

  /** The directory names on the way to a changed file. */
  function Dirs(path: string): seq<string> {
    var parts := Split(path, SLASH);
    parts[..|parts| - 1]
  }

  /** The changes directly in directory p, in list order. */
  function FilesAt(entries: seq<Change>, p: seq<string>): seq<Change> {
    if entries == [] then []
    else
      var front, e := entries[..|entries| - 1], entries[|entries| - 1];
      if Dirs(e.path) == p then FilesAt(front, p) + [e] else FilesAt(front, p)
  }

  /** The change lies somewhere below directory p. */
  predicate Below(p: seq<string>, e: Change) {
    p <= Dirs(e.path)
  }

  predicate StrictlyBelow(p: seq<string>, e: Change) {
    p < Dirs(e.path)
  }

  /** The subdirectory of p that the change lies in. */
  function NextName(p: seq<string>, e: Change): string
    requires StrictlyBelow(p, e)
  {
    Dirs(e.path)[|p|]
  }

  /** The names of the subdirectories of p, in the order the list first mentions them. */
  function NamesAt(entries: seq<Change>, p: seq<string>): seq<string> {
    if entries == [] then []
    else
      var front, e := entries[..|entries| - 1], entries[|entries| - 1];
      var names := NamesAt(front, p);
      if StrictlyBelow(p, e) && NextName(p, e) !in names then names + [NextName(p, e)] else names
  }

  /** How deep the list's directories go. */
  function Depth(entries: seq<Change>): nat {
    if entries == [] then 0
    else
      var d, e := Depth(entries[..|entries| - 1]), |Dirs(entries[|entries| - 1].path)|;
      if d >= e then d else e
  }

  lemma {:induction false} DepthBounds(entries: seq<Change>, e: Change)
    requires e in entries
    ensures |Dirs(e.path)| <= Depth(entries)
  {
    if e != entries[|entries| - 1] {
      assert e in entries[..|entries| - 1];
      DepthBounds(entries[..|entries| - 1], e);
    }
  }

  lemma {:induction false} NamesFound(entries: seq<Change>, p: seq<string>, name: string)
    ensures name in NamesAt(entries, p) <==> exists e :: e in entries && StrictlyBelow(p, e) && NextName(p, e) == name
  {
    if entries != [] {
      var front, e := entries[..|entries| - 1], entries[|entries| - 1];
      NamesFound(front, p, name);
      assert entries == front + [e];
    }
  }

  lemma {:induction false} NamesDistinct(entries: seq<Change>, p: seq<string>)
    ensures Distinct(NamesAt(entries, p))
  {
    if entries != [] { NamesDistinct(entries[..|entries| - 1], p); }
  }

  lemma {:induction false} NamesAreShallow(entries: seq<Change>, p: seq<string>, name: string)
    requires name in NamesAt(entries, p)
    ensures |p| < Depth(entries)
  {
    NamesFound(entries, p, name);
    var e :| e in entries && StrictlyBelow(p, e) && NextName(p, e) == name;
    DepthBounds(entries, e);
  }

  // ---- the tree ----

  /** A directory's path: its name behind its parent's path, or alone where the parent's path is empty. */
  function SubPath(base: string, name: string): string {
    if base != "" then base + [SLASH] + name else name
  }

  function OfEntry(e: Change): Counts {
    var shown := !(e.binary || e.untracked);
    Counts(
      if shown then e.additions else 0,
      if shown then e.deletions else 0,
      if !e.unmerged && e.staged then 1 else 0,
      if !e.unmerged && e.unstaged then 1 else 0,
      if !e.unmerged && e.untracked then 1 else 0,
      if e.unmerged then 1 else 0)
  }

  const NOTHING: Counts := Counts(0, 0, 0, 0, 0, 0)

  function Plus(a: Counts, b: Counts): Counts {
    Counts(a.additions + b.additions, a.deletions + b.deletions, a.staged + b.staged,
           a.unstaged + b.unstaged, a.untracked + b.untracked, a.unmerged + b.unmerged)
  }

  /** What a directory's counters add up to, from its children's. */
  function Aggregate(nodes: seq<Node>): Counts {
    if nodes == [] then NOTHING
    else
      var last := nodes[|nodes| - 1];
      Plus(Aggregate(nodes[..|nodes| - 1]), if last.File? then OfEntry(last.entry) else last.counts)
  }

  function ByPath(collate: (string, string) -> bool): (Change, Change) -> bool {
    (a: Change, b: Change) => collate(a.path, b.path)
  }

  function FileNodes(files: seq<Change>): (r: seq<Node>)
    ensures |r| == |files|
  {
    if files == [] then [] else FileNodes(files[..|files| - 1]) + [File(files[|files| - 1])]
  }

  /** The nodes of directory p: its subdirectories by name, then its files by path. */
  function Forest(entries: seq<Change>, p: seq<string>, base: string, collate: (string, string) -> bool): seq<Node>
    decreases Max(0, Depth(entries) - |p|), 1, 0
  {
    var names := Sorting.Sort(NamesAt(entries, p), collate);
    SortedNames(entries, p, collate);
    DirNodes(entries, p, base, collate, names)
    + FileNodes(Sorting.Sort(FilesAt(entries, p), ByPath(collate)))
  }

  function Max(a: int, b: int): int { if a >= b then a else b }

  function DirNodes(entries: seq<Change>, p: seq<string>, base: string, collate: (string, string) -> bool,
                    names: seq<string>): (r: seq<Node>)
    requires forall n :: n in names ==> n in NamesAt(entries, p)
    ensures |r| == |names|
    decreases Max(0, Depth(entries) - |p|), 0, |names|
  {
    if names == [] then []
    else
      var front, name := names[..|names| - 1], names[|names| - 1];
      NamesAreShallow(entries, p, name);
      var children := Forest(entries, p + [name], SubPath(base, name), collate);
      DirNodes(entries, p, base, collate, front) + [Dir(name, SubPath(base, name), children, Aggregate(children))]
  }

  lemma {:induction false} SortedNames(entries: seq<Change>, p: seq<string>, collate: (string, string) -> bool)
    ensures forall n :: n in Sorting.Sort(NamesAt(entries, p), collate) <==> n in NamesAt(entries, p)
  {
    forall n ensures n in Sorting.Sort(NamesAt(entries, p), collate) <==> n in NamesAt(entries, p) {
      Sorting.SortKeepsElements(NamesAt(entries, p), collate, n);
    }
  }

  function Tree(entries: seq<Change>, collate: (string, string) -> bool): seq<Node> {
    Forest(entries, [], "", collate)
  }
}
