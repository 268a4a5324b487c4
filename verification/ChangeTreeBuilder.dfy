/** Building the tree: a trie of directories grown in place on the heap, one change at a time, then read
    into nodes whose counters are added up from their children. */
module ChangeTreeBuilder {
  import opened Text
  import opened ChangeTree
  import Sorting

  /** One directory of the trie: its subdirectories, in insertion order, and its files. */
  class TreeAcc {
    var order: seq<string>
    var dirs: map<string, TreeAcc>
    var files: seq<Change>

    constructor ()
      ensures order == [] && dirs == map[] && files == []
    {
      order, dirs, files := [], map[], [];
    }

    /** `dirs.get(name)`. */
    function Get(name: string): (r: TreeAcc?)
      reads this
    {
      if name in dirs then dirs[name] else null
    }

    /** `dirs.set(name, node)`, for a name not yet there. */
    method Add(name: string, node: TreeAcc)
      requires name !in dirs
      modifies this
      ensures dirs == old(dirs)[name := node] && order == old(order) + [name] && files == old(files)
    {
      dirs := dirs[name := node];
      order := order + [name];
    }
  }

  /** Where each directory chain's node is. */
  type Places = map<seq<string>, TreeAcc>

  /** The node at p has a subdirectory of that name exactly when a node is placed there, and points to it. */
  ghost predicate Child(at: Places, p: seq<string>, name: string)
    requires p in at
    reads at.Values
  {
    (name in at[p].dirs <==> p + [name] in at)
    && (name in at[p].dirs ==> at[p].dirs[name] == at[p + [name]])
    && (name in at[p].order <==> name in at[p].dirs)
  }

  /** No node serves two chains. */
  ghost predicate Apart(at: Places, p: seq<string>, q: seq<string>)
    requires p in at && q in at
  {
    at[p] == at[q] ==> p == q
  }

  /** The places form one tree. */
  ghost predicate Linked(at: Places)
    reads at.Values
  {
    [] in at
    && (forall p, q :: p in at && q in at ==> Apart(at, p, q))
    && (forall p, name :: p in at ==> Child(at, p, name))
  }

  /** Chain p is on the way to one of the changes. */
  ghost predicate OnTheWay(entries: seq<Change>, p: seq<string>) {
    p == [] || exists e :: e in entries && Below(p, e)
  }

  /** Node p holds what the list puts at p; the names already mention the change under way for the chains passed. */
  ghost predicate Holds(entries: seq<Change>, node: TreeAcc, p: seq<string>)
    reads node
  {
    node.order == NamesAt(entries, p) && node.files == FilesAt(entries, p)
  }

  /** The trie of a list of changes. */
  ghost predicate IsTrie(entries: seq<Change>, at: Places)
    reads at.Values
  {
    Linked(at)
    && (forall p :: p in at <==> OnTheWay(entries, p))
    && (forall p :: p in at ==> Holds(entries, at[p], p))
  }

  // A change on its walk: chain p is among the first i directories, or strictly above the i-th.

  predicate Reached(e: Change, i: nat, p: seq<string>)
    requires i <= |Dirs(e.path)|
  {
    p <= Dirs(e.path)[..i]
  }

  predicate Passed(e: Change, i: nat, p: seq<string>)
    requires i <= |Dirs(e.path)|
  {
    p < Dirs(e.path)[..i]
  }

  ghost predicate Covers(entries: seq<Change>, e: Change, i: nat, at: Places)
    requires i <= |Dirs(e.path)|
  {
    forall p :: p in at <==> OnTheWay(entries, p) || Reached(e, i, p)
  }

  /** The directories passed have the next name on the change's way; the rest are as they were. */
  ghost predicate Contents(entries: seq<Change>, e: Change, i: nat, at: Places)
    requires i <= |Dirs(e.path)|
    reads at.Values
  {
    forall p :: p in at ==> at[p].files == FilesAt(entries, p)
                            && at[p].order == NamesAt(if Passed(e, i, p) then entries + [e] else entries, p)
  }

  /** The trie while change e walks down its first i directories. */
  ghost predicate Walking(entries: seq<Change>, e: Change, i: nat, at: Places)
    requires i <= |Dirs(e.path)|
    reads at.Values
  {
    Linked(at) && Covers(entries, e, i, at) && Contents(entries, e, i, at)
  }

  lemma {:induction false} NamesNext(entries: seq<Change>, e: Change, p: seq<string>)
    ensures NamesAt(entries + [e], p)
            == if StrictlyBelow(p, e) && NextName(p, e) !in NamesAt(entries, p)
               then NamesAt(entries, p) + [NextName(p, e)] else NamesAt(entries, p)
  {
  }

  lemma {:induction false} FilesNext(entries: seq<Change>, e: Change, p: seq<string>)
    ensures FilesAt(entries + [e], p) == if Dirs(e.path) == p then FilesAt(entries, p) + [e] else FilesAt(entries, p)
  {
  }

  lemma {:induction false} OnTheWayNext(entries: seq<Change>, e: Change, p: seq<string>)
    ensures OnTheWay(entries + [e], p) <==> OnTheWay(entries, p) || p <= Dirs(e.path)
  {
    var more := entries + [e];
    assert forall x :: x in more <==> x in entries || x == e;
    if OnTheWay(entries, p) && p != [] {
      var x :| x in entries && Below(p, x);
      assert x in more && Below(p, x);
    }
    if p <= Dirs(e.path) { assert e in more && Below(p, e); }
  }

  lemma {:induction false} Untouched(entries: seq<Change>, p: seq<string>)
    requires !OnTheWay(entries, p)
    ensures FilesAt(entries, p) == [] && NamesAt(entries, p) == []
  {
    if entries != [] {
      var front, e := entries[..|entries| - 1], entries[|entries| - 1];
      assert !Below(p, e);
      forall x | x in front ensures !Below(p, x) { assert x in entries; }
      Untouched(front, p);
    }
  }

  lemma {:induction false} NothingDeeper(entries: seq<Change>, p: seq<string>, name: string)
    requires !OnTheWay(entries, p)
    ensures !OnTheWay(entries, p + [name])
  {
  }

  lemma {:induction false} OneDeeper(e: Change, i: nat, p: seq<string>)
    requires i < |Dirs(e.path)|
    ensures Reached(e, i + 1, p) <==> Reached(e, i, p) || p == Dirs(e.path)[..i + 1]
    ensures Passed(e, i + 1, p) <==> Passed(e, i, p) || p == Dirs(e.path)[..i]
  {
    var here, next := Dirs(e.path)[..i], Dirs(e.path)[..i + 1];
    assert here == next[..i];
    if p <= next && p != next { assert p == next[..|p|] == here[..|p|]; }
    if p <= here { assert p == here[..|p|] == next[..|p|]; }
  }

  /** The name the change adds to the directory it passes. */
  lemma {:induction false} NamePassed(entries: seq<Change>, e: Change, i: nat)
    requires i < |Dirs(e.path)|
    ensures var here, name := Dirs(e.path)[..i], Dirs(e.path)[i];
            NamesAt(entries + [e], here)
            == if name in NamesAt(entries, here) then NamesAt(entries, here) else NamesAt(entries, here) + [name]
  {
  }

  /** Stepping into a subdirectory that is there already changes nothing. */
  lemma {:induction false} KnownSub(entries: seq<Change>, e: Change, i: nat, at: Places)
    requires i < |Dirs(e.path)| && Walking(entries, e, i, at) && Dirs(e.path)[..i] in at
    requires Dirs(e.path)[i] in at[Dirs(e.path)[..i]].dirs
    ensures Walking(entries, e, i + 1, at) && Dirs(e.path)[..i + 1] in at
    ensures at[Dirs(e.path)[..i]].dirs[Dirs(e.path)[i]] == at[Dirs(e.path)[..i + 1]]
  {
    hide OnTheWay, Reached, Passed, Dirs, FilesAt, NamesAt;
    var here, deeper, name := Dirs(e.path)[..i], Dirs(e.path)[..i + 1], Dirs(e.path)[i];
    assert here + [name] == deeper;
    assert Child(at, here, name);
    assert Covers(entries, e, i + 1, at) by {
      forall p ensures Reached(e, i + 1, p) <==> Reached(e, i, p) || p == deeper { OneDeeper(e, i, p); }
    }
    assert name in at[here].order;
    NamePassed(entries, e, i);
    forall p | p in at ensures at[p].order == NamesAt(if Passed(e, i + 1, p) then entries + [e] else entries, p) {
      OneDeeper(e, i, p);
      if p == here { NotPassed(e, i); }
    }
  }

  lemma {:induction false} NotPassed(e: Change, i: nat)
    requires i <= |Dirs(e.path)|
    ensures !Passed(e, i, Dirs(e.path)[..i]) && Reached(e, i, Dirs(e.path)[..i])
  {
  }

  /** The places and their chains once a new node is put at the next directory. */
  lemma {:induction false} NewPlace(entries: seq<Change>, e: Change, i: nat, at: Places, node: TreeAcc)
    requires i < |Dirs(e.path)| && Covers(entries, e, i, at)
    ensures Covers(entries, e, i + 1, at[Dirs(e.path)[..i + 1] := node])
  {
    var deeper := Dirs(e.path)[..i + 1];
    forall p ensures p in at[deeper := node] <==> OnTheWay(entries, p) || Reached(e, i + 1, p) {
      OneDeeper(e, i, p);
    }
  }

  lemma {:induction false} ItsOwnNode(at: Places, p: seq<string>)
    requires Linked(at) && p in at
    ensures Alone(at, p, null)
  {
    hide Child;
    forall q | q in at && at[q] == at[p] ensures q == p { assert Apart(at, q, p); }
  }

  /** The names a directory should hold once the change has gone one step further, into a new directory. */
  lemma {:induction false} NamesStep(entries: seq<Change>, e: Change, i: nat, p: seq<string>)
    requires i < |Dirs(e.path)| && !OnTheWay(entries, Dirs(e.path)[..i + 1])
    requires Dirs(e.path)[i] !in NamesAt(entries, Dirs(e.path)[..i])
    ensures var here, deeper := Dirs(e.path)[..i], Dirs(e.path)[..i + 1];
            var now := NamesAt(if Passed(e, i + 1, p) then entries + [e] else entries, p);
            (p == deeper ==> now == [] && FilesAt(entries, p) == [])
            && (p == here ==> now == NamesAt(entries, p) + [Dirs(e.path)[i]] && !Passed(e, i, p))
            && (p != here ==> (Passed(e, i + 1, p) <==> Passed(e, i, p)))
  {
    hide OnTheWay, Reached, Passed, Dirs, FilesAt, NamesAt, NextName;
    Untouched(entries, Dirs(e.path)[..i + 1]);
    NamePassed(entries, e, i);
    NotPassed(e, i);
    NotPassed(e, i + 1);
    OneDeeper(e, i, p);
  }

  /** The new node serves its own chain only. */
  lemma {:induction false} StaysApart(at0: Places, here: seq<string>, deeper: seq<string>, node: TreeAcc)
    requires (forall p, q :: p in at0 && q in at0 ==> Apart(at0, p, q)) && Alone(at0, here, node)
    ensures var at := at0[deeper := node]; forall p, q :: p in at && q in at ==> Apart(at, p, q)
  {
    var at := at0[deeper := node];
    forall p, q | p in at && q in at ensures Apart(at, p, q) {
      if p in at0 && q in at0 { assert Apart(at0, p, q); }
    }
  }

  /** Stepping into a new subdirectory links it under its parent and nowhere else. */
  method NewSub(acc: TreeAcc, name: string, ghost entries: seq<Change>, ghost e: Change, ghost i: nat,
                ghost at0: Places)
    returns (next: TreeAcc, ghost at: Places)
    requires i < |Dirs(e.path)| && name == Dirs(e.path)[i]
    requires Walking(entries, e, i, at0) && Dirs(e.path)[..i] in at0 && acc == at0[Dirs(e.path)[..i]]
    requires name !in acc.dirs
    modifies acc
    ensures fresh(next) && at == at0[Dirs(e.path)[..i + 1] := next] && Dirs(e.path)[..i + 1] !in at0
    ensures Walking(entries, e, i + 1, at)
  {
    hide OnTheWay, Reached, Passed, Dirs, FilesAt, NamesAt, NextName;
    ghost var here, deeper := Dirs(e.path)[..i], Dirs(e.path)[..i + 1];
    assert here + [name] == deeper;
    assert Child(at0, here, name);
    next := new TreeAcc();
    NewPlace(entries, e, i, at0, next);
    ItsOwnNode(at0, here);
    acc.Add(name, next);
    at := at0[deeper := next];
    StaysApart(at0, here, deeper, next);
    assert Contents(entries, e, i + 1, at) by {
      hide Child, Apart;
      NotPassed(e, i);
      forall p | p in at ensures at[p].files == FilesAt(entries, p)
                         ensures at[p].order == NamesAt(if Passed(e, i + 1, p) then entries + [e] else entries, p)
      {
        NamesStep(entries, e, i, p);
      }
    }
    forall p, n | p in at ensures Child(at, p, n) {
      LinkKept(entries, e, i, p, n);
      if p in at0 { assert old(Child(at0, p, n)); }
    }
  }

  /** No chain but p leads to its node, and none to the new one. */
  ghost predicate Alone(at: Places, p: seq<string>, added: TreeAcc?) {
    p in at && forall q :: q in at ==> (at[q] == at[p] ==> q == p) && at[q] != added
  }

  lemma {:induction false} LinkKept(entries: seq<Change>, e: Change, i: nat, p: seq<string>, n: string)
    requires i < |Dirs(e.path)|
    ensures var here, deeper := Dirs(e.path)[..i], Dirs(e.path)[..i + 1];
            (p == deeper && !OnTheWay(entries, deeper) ==> !OnTheWay(entries, p + [n]) && !Reached(e, i + 1, p + [n]))
            && (p + [n] == deeper ==> p == here && n == Dirs(e.path)[i])
  {
    var here, deeper := Dirs(e.path)[..i], Dirs(e.path)[..i + 1];
    if p == deeper && !OnTheWay(entries, deeper) { NothingDeeper(entries, deeper, n); }
    assert deeper[..i] == here && deeper[i] == Dirs(e.path)[i];
    if p + [n] == deeper { assert (p + [n])[..|p|] == p && (p + [n])[|p|] == n; }
  }

  lemma {:induction false} WalkStarts(entries: seq<Change>, e: Change, at: Places)
    requires IsTrie(entries, at)
    ensures Walking(entries, e, 0, at)
  {
  }

  /** At the end of the walk only the change's own directory is behind, by the one file. */
  lemma {:induction false} WalkEnds(entries: seq<Change>, e: Change, p: seq<string>)
    ensures OnTheWay(entries, p) || Reached(e, |Dirs(e.path)|, p) <==> OnTheWay(entries + [e], p)
    ensures NamesAt(if Passed(e, |Dirs(e.path)|, p) then entries + [e] else entries, p) == NamesAt(entries + [e], p)
  {
    OnTheWayNext(entries, e, p);
    NamesNext(entries, e, p);
    assert Dirs(e.path)[..|Dirs(e.path)|] == Dirs(e.path);
  }

  /** One step of the walk: `get` the subdirectory, or `set` an empty one. */
  method Descend(acc: TreeAcc, name: string, ghost entries: seq<Change>, ghost e: Change, ghost i: nat,
                 ghost at0: Places)
    returns (next: TreeAcc, ghost at: Places)
    requires i < |Dirs(e.path)| && name == Dirs(e.path)[i]
    requires Walking(entries, e, i, at0) && Dirs(e.path)[..i] in at0 && acc == at0[Dirs(e.path)[..i]]
    modifies acc
    ensures Dirs(e.path)[..i + 1] in at && next == at[Dirs(e.path)[..i + 1]]
    ensures at == at0 || (fresh(next) && Dirs(e.path)[..i + 1] !in at0 && at == at0[Dirs(e.path)[..i + 1] := next])
    ensures Walking(entries, e, i + 1, at)
  {
    hide Walking, OnTheWay, Reached, Passed, Dirs, FilesAt, NamesAt;
    var known := acc.Get(name);
    if known == null {
      next, at := NewSub(acc, name, entries, e, i, at0);
    } else {
      KnownSub(entries, e, i, at0);
      next, at := known, at0;
    }
  }

  /** One change put into the trie. */
  method Insert(root: TreeAcc, e: Change, ghost entries: seq<Change>, ghost at0: Places) returns (ghost at: Places)
    requires IsTrie(entries, at0) && at0[[]] == root
    modifies at0.Values
    ensures IsTrie(entries + [e], at) && at[[]] == root && fresh(at.Values - at0.Values)
  {
    hide IsTrie, Walking, Linked, OnTheWay, Reached, Passed, FilesAt, NamesAt;
    var parts := Split(e.path, SLASH);
    var acc, i := root, 0;
    at := at0;
    WalkStarts(entries, e, at0);
    RootThere(entries, at0);
    while i < |parts| - 1
      invariant 0 <= i <= |parts| - 1 && Dirs(e.path) == parts[..|parts| - 1]
      invariant Walking(entries, e, i, at) && Dirs(e.path)[..i] in at && acc == at[Dirs(e.path)[..i]]
      invariant [] in at && at[[]] == root && fresh(at.Values - at0.Values)
    {
      acc, at := Descend(acc, parts[i], entries, e, i, at);
      i := i + 1;
    }
    assert Dirs(e.path)[..i] == Dirs(e.path);
    Push(acc, entries, e, at);
  }

  lemma {:induction false} RootThere(entries: seq<Change>, at: Places)
    requires IsTrie(entries, at)
    ensures [] in at
  {
  }

  /** The last step: the change joins the files of its directory. */
  method Push(acc: TreeAcc, ghost entries: seq<Change>, e: Change, ghost at: Places)
    requires Walking(entries, e, |Dirs(e.path)|, at) && Dirs(e.path) in at && acc == at[Dirs(e.path)]
    modifies acc
    ensures IsTrie(entries + [e], at) && acc.dirs == old(acc.dirs)
  {
    hide OnTheWay, Reached, Passed, Dirs, FilesAt, NamesAt;
    ItsOwnNode(at, Dirs(e.path));
    acc.files := acc.files + [e];
    forall p, n | p in at ensures Child(at, p, n) { assert old(Child(at, p, n)); }
    forall p ensures p in at <==> OnTheWay(entries + [e], p) { WalkEnds(entries, e, p); }
    forall p | p in at ensures Holds(entries + [e], at[p], p) {
      WalkEnds(entries, e, p);
      FilesNext(entries, e, p);
    }
  }

  /** The whole list, change by change, into a new trie. */
  method BuildTrie(entries: seq<Change>) returns (root: TreeAcc, ghost at: Places)
    ensures IsTrie(entries, at) && [] in at && at[[]] == root && fresh(at.Values)
  {
    hide IsTrie;
    root := new TreeAcc();
    at := map[[] := root];
    EmptyTrie(root, at);
    for i := 0 to |entries|
      invariant IsTrie(entries[..i], at) && [] in at && at[[]] == root && fresh(at.Values)
    {
      at := Insert(root, entries[i], entries[..i], at);
      assert entries[..i] + [entries[i]] == entries[..i + 1];
      RootThere(entries[..i + 1], at);
    }
    assert entries[..|entries|] == entries;
  }

  lemma {:induction false} EmptyTrie(root: TreeAcc, at: Places)
    requires at == map[[] := root] && root.order == [] && root.dirs == map[] && root.files == []
    ensures IsTrie([], at)
  {
  }

  // ---- reading the trie ----

  /** `aggregateInto`: a directory's counters, raised by each child in turn. */
  method AggregateInto(nodes: seq<Node>) returns (dir: Counts)
    ensures dir == Aggregate(nodes)
  {
    dir := NOTHING;
    for k := 0 to |nodes|
      invariant dir == Aggregate(nodes[..k])
    {
      assert nodes[..k + 1][..k] == nodes[..k];
      var node := nodes[k];
      match node
      case File(e) =>
        dir := dir.(additions := dir.additions + (if e.binary || e.untracked then 0 else e.additions));
        dir := dir.(deletions := dir.deletions + (if e.binary || e.untracked then 0 else e.deletions));
        if e.unmerged {
          dir := dir.(unmerged := dir.unmerged + 1);
        } else {
          if e.untracked { dir := dir.(untracked := dir.untracked + 1); }
          if e.staged { dir := dir.(staged := dir.staged + 1); }
          if e.unstaged { dir := dir.(unstaged := dir.unstaged + 1); }
        }
      case Dir(_, _, _, counts) =>
        dir := Plus(dir, counts);
    }
    assert nodes[..|nodes|] == nodes;
  }

  lemma {:induction false} AtPlace(entries: seq<Change>, at: Places, p: seq<string>)
    requires IsTrie(entries, at) && p in at
    ensures Holds(entries, at[p], p)
  {
  }

  /** The trie holds a subdirectory's node under its name. */
  lemma {:induction false} SubThere(entries: seq<Change>, at: Places, p: seq<string>, name: string)
    requires IsTrie(entries, at) && p in at && name in NamesAt(entries, p)
    ensures name in at[p].dirs && p + [name] in at && at[p].dirs[name] == at[p + [name]]
  {
    hide OnTheWay, FilesAt, NamesAt;
    AtPlace(entries, at, p);
    assert Child(at, p, name);
  }

  lemma {:induction false} ForestIs(entries: seq<Change>, p: seq<string>, base: string,
                                    collate: (string, string) -> bool)
    ensures forall n :: n in Sorting.Sort(NamesAt(entries, p), collate) ==> n in NamesAt(entries, p)
    ensures DirNodes(entries, p, base, collate, []) == []
    ensures Forest(entries, p, base, collate)
            == DirNodes(entries, p, base, collate, Sorting.Sort(NamesAt(entries, p), collate))
               + FileNodes(Sorting.Sort(FilesAt(entries, p), ByPath(collate)))
  {
    hide NamesAt, FilesAt, Sorting.Sort;
    SortedNames(entries, p, collate);
  }

  lemma {:induction false} DirNodesNext(entries: seq<Change>, p: seq<string>, base: string,
                                        collate: (string, string) -> bool, names: seq<string>, k: nat)
    requires k < |names| && forall n :: n in names ==> n in NamesAt(entries, p)
    ensures var children := Forest(entries, p + [names[k]], SubPath(base, names[k]), collate);
            DirNodes(entries, p, base, collate, names[..k + 1])
            == DirNodes(entries, p, base, collate, names[..k])
               + [Dir(names[k], SubPath(base, names[k]), children, Aggregate(children))]
  {
    hide NamesAt, Forest, Aggregate;
    assert names[..k + 1][..k] == names[..k];
  }

  /** `dirNodes`: the directory's subdirectories by name, each read and added up, then its files by path. */
  method ReadDir(acc: TreeAcc, base: string, collate: (string, string) -> bool,
                 ghost entries: seq<Change>, ghost at: Places, ghost p: seq<string>)
    returns (nodes: seq<Node>)
    requires IsTrie(entries, at) && p in at && acc == at[p]
    ensures nodes == Forest(entries, p, base, collate)
    decreases Max(0, Depth(entries) - |p|)
  {
    hide IsTrie, FilesAt, NamesAt, Aggregate, Forest, DirNodes, Sorting.Sort;
    AtPlace(entries, at, p);
    var dirNames := Sorting.Sort(acc.order, collate);
    SortedNames(entries, p, collate);
    nodes := [];
    ForestIs(entries, p, base, collate);
    assert dirNames[..0] == [];
    for k := 0 to |dirNames|
      invariant nodes == DirNodes(entries, p, base, collate, dirNames[..k])
    {
      var name := dirNames[k];
      NamesAreShallow(entries, p, name);
      SubThere(entries, at, p, name);
      var path := if base != "" then base + [SLASH] + name else name;
      var children := ReadDir(acc.dirs[name], path, collate, entries, at, p + [name]);
      var counts := AggregateInto(children);
      nodes := nodes + [Dir(name, path, children, counts)];
      DirNodesNext(entries, p, base, collate, dirNames, k);
    }
    assert dirNames[..|dirNames|] == dirNames;
    nodes := nodes + FileNodes(Sorting.Sort(acc.files, ByPath(collate)));
  }

  /** `buildChangeTree`: the trie built on the heap and read back is the tree of the list. */
  method BuildChangeTree(entries: seq<Change>, collate: (string, string) -> bool) returns (nodes: seq<Node>)
    ensures nodes == Tree(entries, collate)
  {
    var root, at := BuildTrie(entries);
    nodes := ReadDir(root, "", collate, entries, at, []);
  }
}
