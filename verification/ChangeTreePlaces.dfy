/** Every file sits under the directories of its own path, and every directory carries its chain's path. */
module ChangeTreePlaces {
  import opened Text
  import opened ChangeTree
  import Sorting

  /** The path a directory chain is given. */
  function PathOf(p: seq<string>): string {
    if p == [] then "" else SubPath(PathOf(p[..|p| - 1]), p[|p| - 1])
  }

  /** Every file sits under the directories of its own path; every directory carries its chain's path. */
  ghost predicate InPlace(nodes: seq<Node>, p: seq<string>) {
    forall j :: 0 <= j < |nodes| ==>
      match nodes[j]
      case File(e) => Dirs(e.path) == p
      case Dir(name, path, children, _) => path == PathOf(p + [name]) && InPlace(children, p + [name])
  }

  lemma {:induction false} FilesInPlace(files: seq<Change>, p: seq<string>)
    requires forall e :: e in files ==> Dirs(e.path) == p
    ensures InPlace(FileNodes(files), p)
  {
    if files != [] {
      FilesInPlace(files[..|files| - 1], p);
      assert files[|files| - 1] in files;
    }
  }

  lemma {:induction false} FilesAtBelong(entries: seq<Change>, p: seq<string>)
    ensures forall e :: e in FilesAt(entries, p) ==> Dirs(e.path) == p
  {
    if entries != [] { FilesAtBelong(entries[..|entries| - 1], p); }
  }

  lemma {:induction false} InPlaceConcat(a: seq<Node>, b: seq<Node>, p: seq<string>)
    requires InPlace(a, p) && InPlace(b, p)
    ensures InPlace(a + b, p)
  {
  }

  lemma {:induction false} ForestInPlace(entries: seq<Change>, p: seq<string>, base: string,
                                         collate: (string, string) -> bool)
    requires base == PathOf(p)
    ensures InPlace(Forest(entries, p, base, collate), p)
    decreases Max(0, Depth(entries) - |p|), 1, 0
  {
    var files := Sorting.Sort(FilesAt(entries, p), ByPath(collate));
    SortedNames(entries, p, collate);
    DirsInPlace(entries, p, base, collate, Sorting.Sort(NamesAt(entries, p), collate));
    FilesAtBelong(entries, p);
    forall e | e in files ensures Dirs(e.path) == p {
      Sorting.SortKeepsElements(FilesAt(entries, p), ByPath(collate), e);
    }
    FilesInPlace(files, p);
    InPlaceConcat(DirNodes(entries, p, base, collate, Sorting.Sort(NamesAt(entries, p), collate)), FileNodes(files), p);
  }

  lemma {:induction false} DirsInPlace(entries: seq<Change>, p: seq<string>, base: string,
                                       collate: (string, string) -> bool, names: seq<string>)
    requires base == PathOf(p) && forall n :: n in names ==> n in NamesAt(entries, p)
    ensures InPlace(DirNodes(entries, p, base, collate, names), p)
    decreases Max(0, Depth(entries) - |p|), 0, |names|
  {
    if names != [] {
      var front, name := names[..|names| - 1], names[|names| - 1];
      NamesAreShallow(entries, p, name);
      DirsInPlace(entries, p, base, collate, front);
      assert (p + [name])[..|p|] == p;
      ForestInPlace(entries, p + [name], SubPath(base, name), collate);
    }
  }

  lemma {:induction false} EveryFileInItsFolder(entries: seq<Change>, collate: (string, string) -> bool)
    ensures InPlace(Tree(entries, collate), [])
  {
    ForestInPlace(entries, [], "", collate);
  }

  // ---- paths ----

  /** A chain without the empty names it starts with. */
  function Stripped(p: seq<string>): seq<string> {
    if p != [] && p[0] == "" then Stripped(p[1..]) else p
  }

  ghost predicate Clean(p: seq<string>) {
    forall j :: 0 <= j < |p| ==> SLASH !in p[j]
  }

  lemma {:induction false} DirsAreClean(e: Change)
    ensures Clean(Dirs(e.path))
  {
    SplitIsClean(e.path, SLASH);
  }

  lemma {:induction false} StrippedAppend(p: seq<string>, name: string)
    ensures Stripped(p + [name]) == if Stripped(p) == [] && name == "" then [] else Stripped(p) + [name]
  {
    if p != [] {
      assert (p + [name])[1..] == p[1..] + [name];
      if p[0] == "" { StrippedAppend(p[1..], name); }
    } else {
      assert p + [name] == [name];
      assert [name][1..] == [];
    }
  }

  lemma {:induction false} JoinAppend(p: seq<string>, name: string)
    requires p != []
    ensures Join(p + [name], SLASH) == Join(p, SLASH) + [SLASH] + name
  {
    assert (p + [name])[1..] == p[1..] + [name];
    if |p| > 1 {
      JoinAppend(p[1..], name);
    } else {
      assert p[1..] + [name] == [name];
    }
  }

  /** A directory's path is the join of its chain, once the empty names in front are dropped. */
  lemma {:induction false} PathIsJoin(p: seq<string>)
    ensures PathOf(p) == Join(Stripped(p), SLASH)
    ensures Stripped(p) != [] ==> Stripped(p)[0] != "" && PathOf(p) != ""
  {
    if p != [] {
      var front, name := p[..|p| - 1], p[|p| - 1];
      PathIsJoin(front);
      StrippedAppend(front, name);
      assert p == front + [name];
      if Stripped(front) != [] { JoinAppend(Stripped(front), name); }
    }
  }

  lemma {:induction false} StrippedClean(p: seq<string>)
    requires Clean(p)
    ensures Clean(Stripped(p))
  {
    if p != [] && p[0] == "" {
      assert forall j :: 0 <= j < |p[1..]| ==> p[1..][j] == p[j + 1];
      StrippedClean(p[1..]);
    }
  }

  /** Two directories share a path exactly when their chains agree past the empty names in front. */
  lemma {:induction false} SamePath(p: seq<string>, q: seq<string>)
    requires Clean(p) && Clean(q)
    ensures PathOf(p) == PathOf(q) <==> Stripped(p) == Stripped(q)
  {
    PathIsJoin(p);
    PathIsJoin(q);
    StrippedClean(p);
    StrippedClean(q);
    if PathOf(p) == PathOf(q) && Stripped(p) != [] && Stripped(q) != [] {
      JoinIsInjective(Stripped(p), Stripped(q), SLASH);
    }
  }
}
