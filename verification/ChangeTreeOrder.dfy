/** The order of the tree: folders first, by name; then files, by path. */
module ChangeTreeOrder {
  import opened ChangeTree
  import Sorting
  import opened ChangeTreeCounters

  /** Folders first, by name; then files, by path. */
  lemma {:induction false} OrderedLikeAnExplorer(entries: seq<Change>, p: seq<string>, base: string,
                                                 collate: (string, string) -> bool)
    requires Sorting.TotalPreorder(collate)
    ensures var nodes := Forest(entries, p, base, collate);
            forall i, j :: 0 <= i < j < |nodes| ==>
              (nodes[j].Dir? ==> nodes[i].Dir? && collate(nodes[i].name, nodes[j].name))
              && (nodes[i].File? ==> nodes[j].File? && collate(nodes[i].entry.path, nodes[j].entry.path))
  {
    hide DirNodes, FileNodes;
    var names := Sorting.Sort(NamesAt(entries, p), collate);
    var files := Sorting.Sort(FilesAt(entries, p), ByPath(collate));
    SortedNames(entries, p, collate);
    Sorting.SortSorts(NamesAt(entries, p), collate);
    ByPathIsPreorder(collate);
    Sorting.SortSorts(FilesAt(entries, p), ByPath(collate));
    OnlyFiles(files);
    forall j | 0 <= j < |names|
      ensures var node := DirNodes(entries, p, base, collate, names)[j]; node.Dir? && node.name == names[j]
    {
      DirAt(entries, p, base, collate, names, j);
    }
    DirsThenFiles(names, files, DirNodes(entries, p, base, collate, names), FileNodes(files), collate);
  }

  lemma {:induction false} ByPathIsPreorder(collate: (string, string) -> bool)
    requires Sorting.TotalPreorder(collate)
    ensures Sorting.TotalPreorder(ByPath(collate))
  {
    var leq := ByPath(collate);
    forall a: Change, b: Change ensures leq(a, b) || leq(b, a) {
      assert collate(a.path, b.path) || collate(b.path, a.path);
    }
    forall a: Change, b: Change, c: Change | leq(a, b) && leq(b, c) ensures leq(a, c) {
      assert collate(a.path, b.path) && collate(b.path, c.path);
    }
  }

  lemma {:induction false} DirsThenFiles(names: seq<string>, files: seq<Change>, dirs: seq<Node>, leaves: seq<Node>,
                                         collate: (string, string) -> bool)
    requires Sorting.Sorted(names, collate) && Sorting.Sorted(files, ByPath(collate))
    requires |dirs| == |names| && forall j :: 0 <= j < |dirs| ==> dirs[j].Dir? && dirs[j].name == names[j]
    requires |leaves| == |files| && forall j :: 0 <= j < |files| ==> leaves[j] == File(files[j])
    ensures var nodes := dirs + leaves;
            forall i, j :: 0 <= i < j < |nodes| ==>
              (nodes[j].Dir? ==> nodes[i].Dir? && collate(nodes[i].name, nodes[j].name))
              && (nodes[i].File? ==> nodes[j].File? && collate(nodes[i].entry.path, nodes[j].entry.path))
  {
    var nodes := dirs + leaves;
    forall i, j | 0 <= i < j < |nodes|
      ensures nodes[j].Dir? ==> nodes[i].Dir? && collate(nodes[i].name, nodes[j].name)
      ensures nodes[i].File? ==> nodes[j].File? && collate(nodes[i].entry.path, nodes[j].entry.path)
    {
      if j < |dirs| {
        assert collate(names[i], names[j]);
      } else if i >= |dirs| {
        assert ByPath(collate)(files[i - |dirs|], files[j - |dirs|]);
      }
    }
  }

  lemma {:induction false} DirAt(entries: seq<Change>, p: seq<string>, base: string,
                                 collate: (string, string) -> bool, names: seq<string>, j: nat)
    requires (forall n :: n in names ==> n in NamesAt(entries, p)) && j < |names|
    ensures var node := DirNodes(entries, p, base, collate, names)[j]; node.Dir? && node.name == names[j]
    decreases |names|
  {
    if j < |names| - 1 { DirAt(entries, p, base, collate, names[..|names| - 1], j); }
  }
}
