/** Folders of one tree and their paths: when every folder has a path of its own. */
module ChangeTreePaths {
  import opened Sequences
  import opened Text
  import opened ChangeTree
  import Sorting
  import opened ChangeTreeLeaves
  import opened ChangeTreePlaces

  /** The folders of a list of nodes, by chain and by path, in one order. */
  function Chains(nodes: seq<Node>, p: seq<string>): seq<seq<string>> {
    if nodes == [] then []
    else
      Chains(nodes[..|nodes| - 1], p)
      + match nodes[|nodes| - 1]
        case File(_) => []
        case Dir(name, _, children, _) => [p + [name]] + Chains(children, p + [name])
  }

  function Paths(nodes: seq<Node>): seq<string> {
    if nodes == [] then []
    else
      Paths(nodes[..|nodes| - 1])
      + match nodes[|nodes| - 1]
        case File(_) => []
        case Dir(_, path, children, _) => [path] + Paths(children)
  }

  lemma {:induction false} PathsOfChains(nodes: seq<Node>, p: seq<string>)
    requires InPlace(nodes, p)
    ensures |Paths(nodes)| == |Chains(nodes, p)|
    ensures forall j :: 0 <= j < |Paths(nodes)| ==> Paths(nodes)[j] == PathOf(Chains(nodes, p)[j])
  {
    if nodes != [] {
      PathsOfChains(nodes[..|nodes| - 1], p);
      match nodes[|nodes| - 1]
      case File(_) =>
      case Dir(name, _, children, _) => PathsOfChains(children, p + [name]);
    }
  }

  lemma {:induction false} ChainsConcat(a: seq<Node>, b: seq<Node>, p: seq<string>)
    ensures Chains(a + b, p) == Chains(a, p) + Chains(b, p)
    decreases |b|
  {
    if b == [] {
      assert a + b == a;
    } else {
      assert (a + b)[..|a + b| - 1] == a + b[..|b| - 1];
      ChainsConcat(a, b[..|b| - 1], p);
    }
  }

  lemma {:induction false} FilesHaveNoChains(files: seq<Change>, p: seq<string>)
    ensures Chains(FileNodes(files), p) == []
  {
    if files != [] { FilesHaveNoChains(files[..|files| - 1], p); }
  }

  /** The chains are distinct, and each is on the way to some change of the list, below p. */
  ghost predicate ChainsOk(entries: seq<Change>, chains: seq<seq<string>>, p: seq<string>) {
    Distinct(chains)
    && forall j :: 0 <= j < |chains| ==> p < chains[j] && exists e :: e in entries && chains[j] <= Dirs(e.path)
  }

  lemma {:induction false} ForestChains(entries: seq<Change>, p: seq<string>, base: string,
                                        collate: (string, string) -> bool)
    ensures ChainsOk(entries, Chains(Forest(entries, p, base, collate), p), p)
    decreases Max(0, Depth(entries) - |p|), 1, 0
  {
    hide ChainsOk, Chains, DirNodes, FileNodes;
    var names := Sorting.Sort(NamesAt(entries, p), collate);
    var files := Sorting.Sort(FilesAt(entries, p), ByPath(collate));
    SortedNames(entries, p, collate);
    NamesDistinct(entries, p);
    DistinctSpread(NamesAt(entries, p), names);
    DirChains(entries, p, base, collate, names);
    ChainsConcat(DirNodes(entries, p, base, collate, names), FileNodes(files), p);
    FilesHaveNoChains(files, p);
    var chains := Chains(DirNodes(entries, p, base, collate, names), p);
    assert chains + [] == chains;
  }

  lemma {:induction false} DirChains(entries: seq<Change>, p: seq<string>, base: string,
                                     collate: (string, string) -> bool, names: seq<string>)
    requires forall n :: n in names ==> n in NamesAt(entries, p)
    requires Distinct(names)
    ensures var chains := Chains(DirNodes(entries, p, base, collate, names), p);
            ChainsOk(entries, chains, p)
            && forall j :: 0 <= j < |chains| ==> |chains[j]| > |p| && chains[j][|p|] in names
    decreases Max(0, Depth(entries) - |p|), 0, |names|
  {
    hide Forest, NamesAt;
    if names != [] {
      var front, name := names[..|names| - 1], names[|names| - 1];
      NamesAreShallow(entries, p, name);
      DirChains(entries, p, base, collate, front);
      ForestChains(entries, p + [name], SubPath(base, name), collate);
      assert name !in front && names == front + [name];
      NamesFound(entries, p, name);
      var e :| e in entries && StrictlyBelow(p, e) && NextName(p, e) == name;
      BelowNext(p, name, e);
      var before := Chains(DirNodes(entries, p, base, collate, front), p);
      var inside := Chains(Forest(entries, p + [name], SubPath(base, name), collate), p + [name]);
      var nodes := DirNodes(entries, p, base, collate, names);
      assert nodes[..|names| - 1] == DirNodes(entries, p, base, collate, front);
      MoreChains(entries, before, inside, p, front, name);
    }
  }

  lemma {:induction false} MoreChains(entries: seq<Change>, before: seq<seq<string>>, inside: seq<seq<string>>,
                                      p: seq<string>, front: seq<string>, name: string)
    requires ChainsOk(entries, before, p) && ChainsOk(entries, inside, p + [name])
    requires forall j :: 0 <= j < |before| ==> |before[j]| > |p| && before[j][|p|] in front
    requires name !in front && exists e :: e in entries && p + [name] <= Dirs(e.path)
    ensures var chains := before + ([p + [name]] + inside);
            ChainsOk(entries, chains, p)
            && forall j :: 0 <= j < |chains| ==> |chains[j]| > |p| && chains[j][|p|] in front + [name]
  {
    var own := p + [name];
    var chains := before + ([own] + inside);
    forall j | |before| <= j < |chains| ensures own <= chains[j] && p < chains[j] && chains[j][|p|] == name {
      assert chains[j] == ([own] + inside)[j - |before|];
      assert own <= chains[j];
      assert chains[j][..|p|] == own[..|p|] == p;
      assert chains[j][|p|] == own[|p|];
    }
    forall i, j | 0 <= i < j < |chains| ensures chains[i] != chains[j] {
      if i < |before| <= j {
        assert chains[i] == before[i];
      } else if |before| < i {
        assert chains[i] == inside[i - |before| - 1] && chains[j] == inside[j - |before| - 1];
      } else if i == |before| {
        assert chains[j] == inside[j - |before| - 1];
      } else {
        assert chains[i] == before[i] && chains[j] == before[j];
      }
    }
  }

  /** A chain of directories on the way to some change. */
  ghost predicate Folder(entries: seq<Change>, c: seq<string>) {
    c != [] && exists e :: e in entries && c <= Dirs(e.path)
  }

  lemma {:induction false} ForestHasChain(entries: seq<Change>, p: seq<string>, base: string,
                                          collate: (string, string) -> bool, c: seq<string>)
    requires p < c && Folder(entries, c)
    ensures c in Chains(Forest(entries, p, base, collate), p)
    decreases Max(0, Depth(entries) - |p|), 1, 0
  {
    hide Chains, DirNodes, FileNodes;
    var names := Sorting.Sort(NamesAt(entries, p), collate);
    var files := Sorting.Sort(FilesAt(entries, p), ByPath(collate));
    SortedNames(entries, p, collate);
    FolderIsNamed(entries, p, c);
    DirHasChain(entries, p, base, collate, names, c);
    ChainsConcat(DirNodes(entries, p, base, collate, names), FileNodes(files), p);
  }

  lemma {:induction false} FolderIsNamed(entries: seq<Change>, p: seq<string>, c: seq<string>)
    requires p < c && Folder(entries, c)
    ensures c[|p|] in NamesAt(entries, p)
  {
    var e :| e in entries && c <= Dirs(e.path);
    assert Dirs(e.path)[..|p|] == c[..|p|] == p;
    assert StrictlyBelow(p, e) && NextName(p, e) == c[|p|];
    NamesFound(entries, p, c[|p|]);
  }

  lemma {:induction false} DirHasChain(entries: seq<Change>, p: seq<string>, base: string,
                                       collate: (string, string) -> bool, names: seq<string>, c: seq<string>)
    requires forall n :: n in names ==> n in NamesAt(entries, p)
    requires p < c && Folder(entries, c) && c[|p|] in names
    ensures c in Chains(DirNodes(entries, p, base, collate, names), p)
    decreases Max(0, Depth(entries) - |p|), 0, |names|
  {
    hide Forest, NamesAt, Folder;
    var front, name := names[..|names| - 1], names[|names| - 1];
    NamesAreShallow(entries, p, name);
    var own, nodes := p + [name], DirNodes(entries, p, base, collate, names);
    assert nodes[..|names| - 1] == DirNodes(entries, p, base, collate, front);
    var inside := Chains(Forest(entries, own, SubPath(base, name), collate), own);
    assert Chains(nodes, p) == Chains(DirNodes(entries, p, base, collate, front), p) + ([own] + inside);
    if c[|p|] != name {
      DirHasChain(entries, p, base, collate, front, c);
    } else if |c| == |p| + 1 {
      assert c == own;
    } else {
      assert own == c[..|p| + 1];
      ForestHasChain(entries, own, SubPath(base, name), collate, c);
    }
  }

  /** Every folder of the tree has a path of its own exactly when no two chains on the way to a change agree past the
      empty names they start with. */
  lemma {:induction false} FolderPathsAreUnique(entries: seq<Change>, collate: (string, string) -> bool)
    ensures Distinct(Paths(Tree(entries, collate)))
            <==> forall c, d :: Folder(entries, c) && Folder(entries, d) && Stripped(c) == Stripped(d) ==> c == d
  {
    hide Folder, Tree, Paths, Chains, Forest;
    var nodes := Tree(entries, collate);
    ChainsOfTree(entries, collate);
    PathsApart(entries, Chains(nodes, []), Paths(nodes));
  }

  /** The folders of the tree are exactly the chains on the way to a change, once each, with their paths. */
  lemma {:induction false} ChainsOfTree(entries: seq<Change>, collate: (string, string) -> bool)
    ensures var chains, paths := Chains(Tree(entries, collate), []), Paths(Tree(entries, collate));
            |paths| == |chains| && (forall j :: 0 <= j < |paths| ==> paths[j] == PathOf(chains[j]))
            && Distinct(chains) && forall c :: c in chains <==> Folder(entries, c)
  {
    hide Chains, Paths, Forest, PathOf, InPlace;
    var chains := Chains(Tree(entries, collate), []);
    EveryFileInItsFolder(entries, collate);
    PathsOfChains(Tree(entries, collate), []);
    ForestChains(entries, [], "", collate);
    forall c ensures c in chains <==> Folder(entries, c) {
      if Folder(entries, c) { ForestHasChain(entries, [], "", collate, c); }
    }
  }

  lemma {:induction false} PathsApart(entries: seq<Change>, chains: seq<seq<string>>, paths: seq<string>)
    requires |paths| == |chains| && forall j :: 0 <= j < |paths| ==> paths[j] == PathOf(chains[j])
    requires Distinct(chains) && forall c :: c in chains <==> Folder(entries, c)
    ensures Distinct(paths)
            <==> forall c, d :: Folder(entries, c) && Folder(entries, d) && Stripped(c) == Stripped(d) ==> c == d
  {
    hide Folder, PathOf, Stripped;
    if Distinct(paths) {
      forall c, d | Folder(entries, c) && Folder(entries, d) && Stripped(c) == Stripped(d) ensures c == d {
        FoldersShareAPath(entries, c, d);
        var i :| 0 <= i < |chains| && chains[i] == c;
        var j :| 0 <= j < |chains| && chains[j] == d;
        assert paths[i] == paths[j];
      }
    } else {
      var i, j :| 0 <= i < j < |chains| && paths[i] == paths[j];
      FoldersShareAPath(entries, chains[i], chains[j]);
      assert chains[i] != chains[j];
    }
  }

  lemma {:induction false} FoldersShareAPath(entries: seq<Change>, c: seq<string>, d: seq<string>)
    requires Folder(entries, c) && Folder(entries, d)
    ensures PathOf(c) == PathOf(d) <==> Stripped(c) == Stripped(d)
  {
    FolderIsClean(entries, c);
    FolderIsClean(entries, d);
    SamePath(c, d);
  }

  lemma {:induction false} FolderIsClean(entries: seq<Change>, c: seq<string>)
    requires Folder(entries, c)
    ensures Clean(c)
  {
    var e :| e in entries && c <= Dirs(e.path);
    DirsAreClean(e);
    forall j | 0 <= j < |c| ensures SLASH !in c[j] { assert c[j] == Dirs(e.path)[j]; }
  }

  /** So it has whenever no path starts with a separator, as the paths git reports do not. */
  lemma {:induction false} RelativePathsAreUnique(entries: seq<Change>, collate: (string, string) -> bool)
    requires forall e :: e in entries ==> Dirs(e.path) == [] || Dirs(e.path)[0] != ""
    ensures Distinct(Paths(Tree(entries, collate)))
  {
    FolderPathsAreUnique(entries, collate);
    forall c | Folder(entries, c) ensures Stripped(c) == c {
      var e :| e in entries && c <= Dirs(e.path);
      assert c[0] == Dirs(e.path)[0];
    }
  }

  lemma {:induction false} DirsOfExamples()
    ensures Dirs("a/x") == ["a"] && Dirs("/a/y") == ["", "a"]
  {
    SplitJoin(["a", "x"], SLASH);
    SplitJoin(["", "a", "y"], SLASH);
    assert ["a", "x"][1..] == ["x"] && ["", "a", "y"][1..] == ["a", "y"] && ["a", "y"][1..] == ["y"];
    assert Join(["a", "x"], SLASH) == "a/x";
    assert Join(["a", "y"], SLASH) == "a/y";
    assert Join(["", "a", "y"], SLASH) == "/a/y";
  }

  /** Two folders of one tree can share a path: "a/x" and "/a/y" put a folder "a" at the root and another under a folder
      without a name. */
  lemma {:induction false} PathsCanCollide(entries: seq<Change>, collate: (string, string) -> bool)
    requires |entries| == 2 && entries[0].path == "a/x" && entries[1].path == "/a/y"
    ensures !Distinct(Paths(Tree(entries, collate)))
  {
    DirsOfExamples();
    hide Tree, Paths;
    FolderPathsAreUnique(entries, collate);
    var c, d := ["a"], ["", "a"];
    assert entries[0] in entries && entries[1] in entries;
    assert Folder(entries, c) && Folder(entries, d);
    assert d[1..] == c;
    assert Stripped(d) == Stripped(c);
  }
}
