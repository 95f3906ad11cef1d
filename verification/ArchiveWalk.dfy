/** Archiving a directory: a walk that prunes generated directories.
    Source: internal/pages/pages.go. */
module ArchiveWalk {
  import opened SlashPaths

  datatype Node = File(name: string, data: string) | Folder(name: string, kids: seq<Node>)

  type Path = seq<string>

  datatype Found = Found(path: Path, data: string)

  ghost predicate ValidTree(kids: seq<Node>) {
    forall n :: n in kids ==> Name(n.name) && (n.Folder? ==> ValidTree(n.kids))
  }

  // ---------------------------------------------------------------------------
  // The pruned walk

  /** `shouldSkipGeneratedFile`: looks at the entry's name and at every part of its path. */
  predicate ShouldSkip(rel: string, name: string, extraDirs: set<string>) {
    || name == ".DS_Store" || "._" <= name
    || exists part :: part in SplitPath(rel) && (part == ".git" || part == "node_modules" || part in extraDirs)
  }

  /** What the walk collects below `at`; a skipped directory is not entered. */
  function Walk(kids: seq<Node>, at: Path, extraDirs: set<string>): seq<Found> {
    if kids == [] then []
    else
      var before, last := Walk(kids[..|kids| - 1], at, extraDirs), kids[|kids| - 1];
      if ShouldSkip(JoinPath(at + [last.name]), last.name, extraDirs) then before
      else match last
        case File(name, data) => before + [Found(at + [name], data)]
        case Folder(name, inner) => before + Walk(inner, at + [name], extraDirs)
  }

  datatype ZipEntry = ZipEntry(name: string, data: string)

  function Zipped(found: seq<Found>): seq<ZipEntry> {
    seq(|found|, i requires 0 <= i < |found| => ZipEntry(JoinPath(found[i].path), found[i].data))
  }

  lemma ZippedConcat(a: seq<Found>, b: seq<Found>)
    ensures Zipped(a + b) == Zipped(a) + Zipped(b)
  {
  }

  class Archive {
    var entries: seq<ZipEntry>

    constructor ()
      ensures entries == []
    {
      entries := [];
    }

    /** `zipDirectory` below one directory, entries in the order the directory lists them. */
    method AddDirectory(kids: seq<Node>, at: Path, extraDirs: set<string>)
      modifies this
      ensures entries == old(entries) + Zipped(Walk(kids, at, extraDirs))
      decreases kids
    {
      assert entries + [] == entries;
      for i := 0 to |kids|
        invariant entries == old(entries) + Zipped(Walk(kids[..i], at, extraDirs))
      {
        var node := kids[i];
        var rel := JoinPath(at + [node.name]);
        ghost var before := Walk(kids[..i], at, extraDirs);
        assert kids[..i + 1][..i] == kids[..i];
        if ShouldSkip(rel, node.name, extraDirs) {
          continue;
        }
        match node
        case File(name, data) =>
          entries := entries + [ZipEntry(rel, data)];
          assert Zipped([Found(at + [name], data)]) == [ZipEntry(rel, data)];
          ZippedConcat(before, [Found(at + [name], data)]);
        case Folder(name, inner) =>
          AddDirectory(inner, at + [name], extraDirs);
          ZippedConcat(before, Walk(inner, at + [name], extraDirs));
      }
      assert kids[..|kids|] == kids;
    }
  }

  // ---------------------------------------------------------------------------
  // The filter

  /** A name that keeps everything at or below it out of the archive. */
  predicate Banned(name: string, extraDirs: set<string>) {
    name == ".DS_Store" || "._" <= name || name == ".git" || name == "node_modules" || name in extraDirs
  }

  predicate Keeps(path: Path, extraDirs: set<string>) {
    forall i :: 0 <= i < |path| ==> !Banned(path[i], extraDirs)
  }

  /** Every file below `at`, nothing pruned. */
  function AllFiles(kids: seq<Node>, at: Path): seq<Found> {
    if kids == [] then []
    else
      var before, last := AllFiles(kids[..|kids| - 1], at), kids[|kids| - 1];
      match last
      case File(name, data) => before + [Found(at + [name], data)]
      case Folder(name, inner) => before + AllFiles(inner, at + [name])
  }

  function Kept(found: seq<Found>, extraDirs: set<string>): seq<Found> {
    if found == [] then []
    else
      var before, last := Kept(found[..|found| - 1], extraDirs), found[|found| - 1];
      if Keeps(last.path, extraDirs) then before + [last] else before
  }

  lemma {:induction false} KeptConcat(a: seq<Found>, b: seq<Found>, extraDirs: set<string>)
    ensures Kept(a + b, extraDirs) == Kept(a, extraDirs) + Kept(b, extraDirs)
  {
    if b == [] {
      assert a + b == a && Kept(a, extraDirs) + [] == Kept(a, extraDirs);
    } else {
      assert (a + b)[..|a + b| - 1] == a + b[..|b| - 1];
      KeptConcat(a, b[..|b| - 1], extraDirs);
    }
  }

  /** With a clean directory path, an entry is skipped exactly when its own name is banned. */
  lemma SkipsBannedName(at: Path, name: string, extraDirs: set<string>)
    requires Names(at) && Name(name) && Keeps(at, extraDirs)
    ensures ShouldSkip(JoinPath(at + [name]), name, extraDirs) <==> Banned(name, extraDirs)
  {
    var path := at + [name];
    SplitJoin(path);
    assert path[|at|] == name && name in path;
    forall part | part in path && part != name ensures !Banned(part, extraDirs) {
      var i :| 0 <= i < |path| && path[i] == part;
      assert at[i] == part;
    }
  }

  lemma {:induction false} NothingKeptBelow(kids: seq<Node>, at: Path, extraDirs: set<string>)
    requires !Keeps(at, extraDirs)
    ensures Kept(AllFiles(kids, at), extraDirs) == []
    decreases kids
  {
    var i :| 0 <= i < |at| && Banned(at[i], extraDirs);
    if kids != [] {
      var init, last := kids[..|kids| - 1], kids[|kids| - 1];
      NothingKeptBelow(init, at, extraDirs);
      assert (at + [last.name])[i] == at[i];
      if last.Folder? {
        NothingKeptBelow(last.kids, at + [last.name], extraDirs);
        KeptConcat(AllFiles(init, at), AllFiles(last.kids, at + [last.name]), extraDirs);
      } else {
        KeptSingle(Found(at + [last.name], last.data), extraDirs);
        KeptConcat(AllFiles(init, at), [Found(at + [last.name], last.data)], extraDirs);
      }
    }
  }

  lemma KeptSingle(f: Found, extraDirs: set<string>)
    ensures Kept([f], extraDirs) == if Keeps(f.path, extraDirs) then [f] else []
  {
    assert [f][..0] == [];
  }

  lemma KeepsChild(at: Path, name: string, extraDirs: set<string>)
    requires Keeps(at, extraDirs)
    ensures Keeps(at + [name], extraDirs) <==> !Banned(name, extraDirs)
  {
    assert (at + [name])[|at|] == name;
  }

  /** The pruned walk is the unpruned one, filtered: a file is collected, in its place, exactly
      when no part of its path is banned. */
  lemma {:induction false} PrunedWalkIsFilter(kids: seq<Node>, at: Path, extraDirs: set<string>)
    requires ValidTree(kids) && Names(at) && Keeps(at, extraDirs)
    ensures Walk(kids, at, extraDirs) == Kept(AllFiles(kids, at), extraDirs)
    decreases kids
  {
    if kids != [] {
      var init, last := kids[..|kids| - 1], kids[|kids| - 1];
      forall n | n in init ensures n in kids {}
      assert last in kids;
      PrunedWalkIsFilter(init, at, extraDirs);
      SkipsBannedName(at, last.name, extraDirs);
      KeepsChild(at, last.name, extraDirs);
      if last.Folder? {
        KeptConcat(AllFiles(init, at), AllFiles(last.kids, at + [last.name]), extraDirs);
        if Banned(last.name, extraDirs) {
          NothingKeptBelow(last.kids, at + [last.name], extraDirs);
        } else {
          PrunedWalkIsFilter(last.kids, at + [last.name], extraDirs);
        }
      } else {
        KeptSingle(Found(at + [last.name], last.data), extraDirs);
        KeptConcat(AllFiles(init, at), [Found(at + [last.name], last.data)], extraDirs);
      }
    }
  }

  /** The tree has a file with this path and these contents. */
  predicate InTree(kids: seq<Node>, path: Path, data: string) {
    exists n :: n in kids && InNode(n, path, data)
  }

  predicate InNode(n: Node, path: Path, data: string) {
    match n
    case File(name, contents) => path == [name] && contents == data
    case Folder(name, inner) => path != [] && path[0] == name && InTree(inner, path[1..], data)
  }

  lemma {:induction false} AllFilesBelow(kids: seq<Node>, at: Path)
    ensures forall f :: f in AllFiles(kids, at) ==> at < f.path
    decreases kids
  {
    if kids != [] {
      var init, last := kids[..|kids| - 1], kids[|kids| - 1];
      AllFilesBelow(init, at);
      if last.Folder? {
        AllFilesBelow(last.kids, at + [last.name]);
        forall f | f in AllFiles(last.kids, at + [last.name]) ensures at < f.path {
          assert at < at + [last.name] < f.path;
        }
      }
    }
  }

  /** The unpruned walk finds exactly the files of the tree, with their contents. */
  lemma {:induction false} AllFilesExact(kids: seq<Node>, at: Path, path: Path, data: string)
    ensures Found(at + path, data) in AllFiles(kids, at) <==> InTree(kids, path, data)
    decreases kids
  {
    if kids != [] {
      var init, last := kids[..|kids| - 1], kids[|kids| - 1];
      AllFilesExact(init, at, path, data);
      NodeIsExact(last, at, path, data);
      assert kids == init + [last];
      if InTree(kids, path, data) {
        var n :| n in kids && InNode(n, path, data);
        assert n in init || n == last;
      }
      if InTree(init, path, data) {
        var n :| n in init && InNode(n, path, data);
        assert n in kids;
      }
      assert last in kids;
    }
  }

  lemma {:induction false} NodeIsExact(n: Node, at: Path, path: Path, data: string)
    ensures InNode(n, path, data) <==>
      match n
      case File(name, contents) => Found(at + path, data) == Found(at + [name], contents)
      case Folder(name, inner) => Found(at + path, data) in AllFiles(inner, at + [name])
    decreases n
  {
    match n
    case File(name, contents) =>
      if at + path == at + [name] { assert (at + path)[|at|..] == (at + [name])[|at|..]; }
    case Folder(name, inner) =>
      AllFilesBelow(inner, at + [name]);
      if path != [] && path[0] == name {
        AllFilesExact(inner, at + [name], path[1..], data);
        assert at + [name] + path[1..] == at + path;
      } else if path != [] {
        assert (at + path)[|at|] == path[0] && (at + [name])[|at|] == name;
      }
  }

  lemma {:induction false} KeptIsFilter(found: seq<Found>, extraDirs: set<string>)
    ensures forall f :: f in Kept(found, extraDirs) <==> f in found && Keeps(f.path, extraDirs)
  {
    if found != [] {
      KeptIsFilter(found[..|found| - 1], extraDirs);
      assert found == found[..|found| - 1] + [found[|found| - 1]];
    }
  }

  /** The frontend archive skips `.next` besides. It holds exactly the files of the tree of which
      no part of the path is a generated directory's name, .DS_Store or a name that begins with
      `._`, each with its contents. */
  lemma ArchiveHoldsKeptFiles(kids: seq<Node>, f: Found)
    requires ValidTree(kids)
    ensures f in Walk(kids, [], {".next"}) <==>
      && InTree(kids, f.path, f.data)
      && forall part :: part in f.path ==>
           part != ".git" && part != "node_modules" && part != ".next" && part != ".DS_Store" && !("._" <= part)
  {
    PrunedWalkIsFilter(kids, [], {".next"});
    KeptIsFilter(AllFiles(kids, []), {".next"});
    AllFilesExact(kids, [], f.path, f.data);
    assert [] + f.path == f.path;
    forall i | 0 <= i < |f.path| ensures f.path[i] in f.path {}
  }
}
