/** The tree loses and invents nothing: its leaves are the changes it was built from. */
module ChangeTreeLeaves {
  import opened Sequences
  import opened ChangeTree
  import Sorting

  /** All changes in a list of nodes, at any depth. */
  function Leaves(nodes: seq<Node>): seq<Change> {
    if nodes == [] then [] else Leaves(nodes[..|nodes| - 1]) + LeavesOf(nodes[|nodes| - 1])
  }

  function LeavesOf(node: Node): seq<Change> {
    match node
    case File(e) => [e]
    case Dir(_, _, children, _) => Leaves(children)
  }

  lemma {:induction false} LeavesConcat(a: seq<Node>, b: seq<Node>)
    ensures Leaves(a + b) == Leaves(a) + Leaves(b)
    decreases |b|
  {
    if b == [] {
      assert a + b == a;
    } else {
      assert (a + b)[..|a + b| - 1] == a + b[..|b| - 1];
      LeavesConcat(a, b[..|b| - 1]);
    }
  }

  lemma {:induction false} LeavesOfFiles(files: seq<Change>)
    ensures Leaves(FileNodes(files)) == files
  {
    if files != [] {
      var front, last := files[..|files| - 1], files[|files| - 1];
      LeavesOfFiles(front);
      LeavesConcat(FileNodes(front), [File(last)]);
      assert Leaves([File(last)]) == [last];
    }
  }

  // ---- leaves ----

  function Times(s: seq<Change>, e: Change): nat {
    multiset(s)[e]
  }

  lemma {:induction false} TimesConcat(a: seq<Change>, b: seq<Change>, e: Change)
    ensures Times(a + b, e) == Times(a, e) + Times(b, e)
  {
  }

  lemma {:induction false} TimesAt(entries: seq<Change>, p: seq<string>, e: Change)
    ensures Times(FilesAt(entries, p), e) == if Dirs(e.path) == p then Times(entries, e) else 0
  {
    if entries != [] {
      var front, last := entries[..|entries| - 1], entries[|entries| - 1];
      TimesAt(front, p, e);
      assert entries == front + [last];
      TimesConcat(front, [last], e);
      TimesConcat(FilesAt(front, p), [last], e);
    }
  }

  /** In the tree below p, a change occurs as often as in the list if it lies below p, and not at all otherwise. */
  lemma {:induction false} ForestLeaves(entries: seq<Change>, p: seq<string>, base: string,
                                        collate: (string, string) -> bool, e: Change)
    ensures Times(Leaves(Forest(entries, p, base, collate)), e) == if Below(p, e) then Times(entries, e) else 0
    decreases Max(0, Depth(entries) - |p|), 1, 0
  {
    var names := Sorting.Sort(NamesAt(entries, p), collate);
    var files := Sorting.Sort(FilesAt(entries, p), ByPath(collate));
    SortedNames(entries, p, collate);
    NamesDistinct(entries, p);
    DistinctSpread(NamesAt(entries, p), names);
    DirLeaves(entries, p, base, collate, names, e);
    LeavesConcat(DirNodes(entries, p, base, collate, names), FileNodes(files));
    LeavesOfFiles(files);
    TimesConcat(Leaves(DirNodes(entries, p, base, collate, names)), files, e);
    TimesAt(entries, p, e);
    if StrictlyBelow(p, e) && e in entries { NamesFound(entries, p, NextName(p, e)); }
    if Below(p, e) && !StrictlyBelow(p, e) { assert Dirs(e.path) == p; }
  }

  lemma {:induction false} DirLeaves(entries: seq<Change>, p: seq<string>, base: string,
                                     collate: (string, string) -> bool, names: seq<string>, e: Change)
    requires forall n :: n in names ==> n in NamesAt(entries, p)
    requires Distinct(names)
    ensures Times(Leaves(DirNodes(entries, p, base, collate, names)), e)
            == if StrictlyBelow(p, e) && NextName(p, e) in names then Times(entries, e) else 0
    decreases Max(0, Depth(entries) - |p|), 0, |names|
  {
    hide Forest, Below, StrictlyBelow, NextName, Times, Leaves;
    if names == [] {
      NoLeaves(e);
    } else {
      var front, name := names[..|names| - 1], names[|names| - 1];
      NamesAreShallow(entries, p, name);
      DirLeaves(entries, p, base, collate, front, e);
      ForestLeaves(entries, p + [name], SubPath(base, name), collate, e);
      BelowNext(p, name, e);
      assert name !in front && names == front + [name];
      LeavesOfMore(DirNodes(entries, p, base, collate, front),
                   DirNodes(entries, p, base, collate, names)[|names| - 1], e);
    }
  }

  lemma {:induction false} NoLeaves(e: Change)
    ensures Times(Leaves([]), e) == 0
  {
  }

  lemma {:induction false} LeavesOfMore(nodes: seq<Node>, node: Node, e: Change)
    ensures Times(Leaves(nodes + [node]), e) == Times(Leaves(nodes), e) + Times(LeavesOf(node), e)
  {
  }

  lemma {:induction false} BelowNext(p: seq<string>, name: string, e: Change)
    ensures Below(p + [name], e) <==> StrictlyBelow(p, e) && NextName(p, e) == name
  {
  }

  /** The leaves of the tree are the list's changes, each as often as listed. */
  lemma {:induction false} NothingLostOrInvented(entries: seq<Change>, collate: (string, string) -> bool)
    ensures multiset(Leaves(Tree(entries, collate))) == multiset(entries)
  {
    forall e ensures multiset(Leaves(Tree(entries, collate)))[e] == multiset(entries)[e] {
      ForestLeaves(entries, [], "", collate, e);
      assert Times(Leaves(Tree(entries, collate)), e) == Times(entries, e);
    }
  }
}
