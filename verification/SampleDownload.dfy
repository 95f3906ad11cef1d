/** Downloading a sample: a worklist over the directories of a repository tree.
    Source: internal/bootstrap/bootstrap.go. */
module SampleDownload {
  import opened Wrappers
  import opened SlashPaths

  /** `Other` is a submodule or a symbolic link. */
  datatype Entry =
    | File(name: string, url: string)
    | Dir(name: string, kids: seq<Entry>)
    | Other(name: string)

  /** A path below the root, by its parts. */
  type Path = seq<string>

  datatype Job = Job(path: Path, url: string)

  /** Sibling entries have different names, all the way down. */
  predicate Unique(kids: seq<Entry>) {
    kids == [] ||
      var init, last := kids[..|kids| - 1], kids[|kids| - 1];
      && Unique(init)
      && (forall i :: 0 <= i < |init| ==> init[i].name != last.name)
      && (last.Dir? ==> Unique(last.kids))
  }

  lemma {:induction false} UniqueBelow(kids: seq<Entry>, i: nat)
    requires Unique(kids) && i < |kids| && kids[i].Dir?
    ensures Unique(kids[i].kids)
  {
    if i < |kids| - 1 {
      UniqueBelow(kids[..|kids| - 1], i);
    }
  }

  /** The listing of the directory at a path, as the contents API returns it. */
  function Contents(kids: seq<Entry>, path: Path): Option<seq<Entry>> {
    if path == [] then Some(kids) else ContentsIn(kids, path)
  }

  function ContentsIn(kids: seq<Entry>, path: Path): Option<seq<Entry>>
    requires path != []
  {
    if kids == [] then None
    else if kids[|kids| - 1].name != path[0] then ContentsIn(kids[..|kids| - 1], path)
    else if !kids[|kids| - 1].Dir? then None
    else if |path| == 1 then Some(kids[|kids| - 1].kids)
    else ContentsIn(kids[|kids| - 1].kids, path[1..])
  }

  /** The download URL of the file at a path. */
  function FileAt(kids: seq<Entry>, path: Path): Option<string> {
    if kids == [] || path == [] then None
    else
      var last := kids[|kids| - 1];
      if last.name != path[0] then FileAt(kids[..|kids| - 1], path)
      else if last.File? && |path| == 1 then Some(last.url)
      else if last.Dir? then FileAt(last.kids, path[1..])
      else None
  }

  // ---------------------------------------------------------------------------
  // The files of a tree, depth first

  function Files(kids: seq<Entry>, at: Path): seq<Job> {
    if kids == [] then []
    else
      var last := kids[|kids| - 1];
      Files(kids[..|kids| - 1], at) + EntryFiles(last, at)
  }

  function EntryFiles(e: Entry, at: Path): seq<Job> {
    match e
    case File(name, url) => [Job(at + [name], url)]
    case Dir(name, inner) => Files(inner, at + [name])
    case Other(_) => []
  }

  function Size(kids: seq<Entry>): nat {
    if kids == [] then 0
    else Size(kids[..|kids| - 1]) + 1 + if kids[|kids| - 1].Dir? then Size(kids[|kids| - 1].kids) else 0
  }

  /** One pending directory. */
  datatype Pending = Pending(path: Path, kids: seq<Entry>)

  function PendingFiles(queue: seq<Pending>): seq<Job> {
    if queue == [] then []
    else PendingFiles(queue[..|queue| - 1]) + Files(queue[|queue| - 1].kids, queue[|queue| - 1].path)
  }

  function PendingSize(queue: seq<Pending>): nat {
    if queue == [] then 0 else PendingSize(queue[..|queue| - 1]) + 1 + Size(queue[|queue| - 1].kids)
  }

  lemma {:induction false} PendingFirst(first: Pending, rest: seq<Pending>)
    ensures PendingFiles([first] + rest) == Files(first.kids, first.path) + PendingFiles(rest)
    ensures PendingSize([first] + rest) == 1 + Size(first.kids) + PendingSize(rest)
  {
    var all := [first] + rest;
    if rest == [] {
      assert all[..|all| - 1] == [] && [] + Files(first.kids, first.path) == Files(first.kids, first.path);
      assert Files(first.kids, first.path) + [] == Files(first.kids, first.path);
    } else {
      var init, last := rest[..|rest| - 1], rest[|rest| - 1];
      assert all[..|all| - 1] == [first] + init && all[|all| - 1] == last;
      PendingFirst(first, init);
      Reassociate(Files(first.kids, first.path), PendingFiles(init), Files(last.kids, last.path));
    }
  }

  lemma Reassociate<T>(a: seq<T>, b: seq<T>, c: seq<T>)
    ensures (a + b) + c == a + (b + c)
  {
  }

  // ---------------------------------------------------------------------------
  // The worklist

  /** The queue holds the paths of the pending directories, each listed under its path. */
  ghost predicate Tracks(kids: seq<Entry>, queue: seq<Path>, pending: seq<Pending>) {
    && |queue| == |pending|
    && forall i :: 0 <= i < |queue| ==>
      queue[i] == pending[i].path && Contents(kids, queue[i]) == Some(pending[i].kids) && Unique(pending[i].kids)
  }

  /** What is started and what is still to be found. */
  ghost function Ledger(started: seq<Job>, pending: seq<Pending>): multiset<Job> {
    multiset(started) + multiset(PendingFiles(pending))
  }

  lemma PendingLast(pending: seq<Pending>, last: Pending)
    ensures PendingFiles(pending + [last]) == PendingFiles(pending) + Files(last.kids, last.path)
    ensures multiset(PendingFiles(pending + [last]))
      == multiset(PendingFiles(pending)) + multiset(Files(last.kids, last.path))
    ensures PendingSize(pending + [last]) == PendingSize(pending) + 1 + Size(last.kids)
  {
    assert (pending + [last])[..|pending|] == pending;
  }

  /** Queueing a subdirectory of a listed directory. */
  lemma QueueTracks(kids: seq<Entry>, path: Path, directory: seq<Entry>, i: nat, queue: seq<Path>,
                    pending: seq<Pending>)
    requires Unique(kids) && Contents(kids, path) == Some(directory) && Unique(directory)
    requires i < |directory| && directory[i].Dir? && Tracks(kids, queue, pending)
    ensures var sub := path + [directory[i].name];
      Tracks(kids, queue + [sub], pending + [Pending(sub, directory[i].kids)])
  {
    ContentsOfChild(kids, path, directory, i);
    UniqueBelow(directory, i);
  }

  /** What is still to come, once the first `n` entries of a directory are visited. */
  ghost predicate Balanced(base: multiset<Job>, started: seq<Job>, pending: seq<Pending>, directory: seq<Entry>,
                           path: Path, n: nat)
    requires n <= |directory|
  {
    Ledger(started, pending) == base + multiset(Files(directory[..n], path))
  }

  lemma AddToBoth(a: multiset<Job>, b: multiset<Job>, c: multiset<Job>, d: multiset<Job>, e: multiset<Job>)
    requires a + b == c + d
    ensures (a + e) + b == c + (d + e) && a + (b + e) == c + (d + e)
  {
    assert (a + e) + b == (a + b) + e && a + (b + e) == (a + b) + e && (c + d) + e == c + (d + e);
  }

  lemma PrefixGrows(directory: seq<Entry>, path: Path, i: nat)
    requires i < |directory|
    ensures multiset(Files(directory[..i + 1], path))
      == multiset(Files(directory[..i], path)) + multiset(EntryFiles(directory[i], path))
    ensures Size(directory[..i + 1])
      == Size(directory[..i]) + 1 + if directory[i].Dir? then Size(directory[i].kids) else 0
  {
    assert directory[..i + 1][..i] == directory[..i];
  }

  lemma VisitFile(base: multiset<Job>, started: seq<Job>, pending: seq<Pending>, directory: seq<Entry>, path: Path,
                  i: nat, job: Job)
    requires i < |directory| && EntryFiles(directory[i], path) == [job]
    requires Balanced(base, started, pending, directory, path, i)
    ensures Balanced(base, started + [job], pending, directory, path, i + 1)
  {
    PrefixGrows(directory, path, i);
    assert multiset(started + [job]) == multiset(started) + multiset([job]);
    AddToBoth(multiset(started), multiset(PendingFiles(pending)), base, multiset(Files(directory[..i], path)),
              multiset([job]));
  }

  lemma VisitOther(base: multiset<Job>, started: seq<Job>, pending: seq<Pending>, directory: seq<Entry>, path: Path,
                   i: nat)
    requires i < |directory| && directory[i].Other? && Balanced(base, started, pending, directory, path, i)
    ensures Balanced(base, started, pending, directory, path, i + 1)
  {
    PrefixGrows(directory, path, i);
  }

  lemma VisitDir(base: multiset<Job>, started: seq<Job>, pending: seq<Pending>, directory: seq<Entry>, path: Path,
                 i: nat)
    requires i < |directory| && directory[i].Dir? && Balanced(base, started, pending, directory, path, i)
    ensures var sub := Pending(path + [directory[i].name], directory[i].kids);
      Balanced(base, started, pending + [sub], directory, path, i + 1)
  {
    PrefixGrows(directory, path, i);
    PendingLast(pending, Pending(path + [directory[i].name], directory[i].kids));
    AddToBoth(multiset(started), multiset(PendingFiles(pending)), base, multiset(Files(directory[..i], path)),
              multiset(EntryFiles(directory[i], path)));
  }

  /** A visit cut short started a part of what a whole one accounts for. */
  lemma VisitStops(base: multiset<Job>, started: seq<Job>, pending: seq<Pending>, directory: seq<Entry>, path: Path,
                   n: nat)
    requires n <= |directory| && Balanced(base, started, pending, directory, path, n)
    ensures Ledger(started, pending) <= base + multiset(Files(directory, path))
  {
    PrefixFiles(directory, n, path);
  }

  lemma VisitEnds(base: multiset<Job>, started: seq<Job>, pending: seq<Pending>, directory: seq<Entry>, path: Path)
    requires Balanced(base, started, pending, directory, path, |directory|)
    ensures Ledger(started, pending) == base + multiset(Files(directory, path))
  {
    assert directory[..|directory|] == directory;
  }

  /** No job's start fails. */
  predicate StartsFine(jobs: seq<Job>, startFails: set<Path>) {
    forall j :: j in jobs ==> j.path !in startFails
  }

  /** Every directory whose listing would fail is still ahead: it or one above it is queued. */
  ghost predicate FailuresAhead(kids: seq<Entry>, queue: seq<Path>, listFails: set<Path>) {
    forall p :: p in listFails && Contents(kids, p).Some? ==> Ahead(queue, p)
  }

  predicate Ahead(queue: seq<Path>, p: Path) {
    exists q :: q in queue && q <= p
  }

  /** `downloadSample`: the failing calls are those for the given paths; a job is started even
      when its call reports the failure of an earlier one, and the last failures only show in the
      final wait. */
  method DownloadSample(kids: seq<Entry>, listFails: set<Path>, startFails: set<Path>, waitFails: bool)
    returns (ok: bool, started: seq<Job>)
    requires Unique(kids)
    ensures ok <==>
      && (forall p :: p in listFails ==> Contents(kids, p).None?)
      && StartsFine(Files(kids, []), startFails) && !waitFails
    ensures ok ==> multiset(started) == multiset(Files(kids, []))
    ensures multiset(started) <= multiset(Files(kids, []))
    ensures forall i, j :: 0 <= i < j < |started| ==> |started[i].path| <= |started[j].path|
  {
    started := [];
    var queue: seq<Path> := [[]];
    ghost var pending := [Pending([], kids)];
    StartTracks(kids);
    RootIsAhead(kids, listFails);
    while |queue| > 0
      invariant Searching(kids, listFails, started, queue, pending) && StartsFine(started, startFails)
      decreases PendingSize(pending)
    {
      ok, started, queue, pending := VisitNext(kids, listFails, startFails, started, queue, pending);
      if !ok {
        return;
      }
    }
    StartedIsPart(started, pending, kids);
    SameJobs(started, Files(kids, []));
    return !waitFails, started;
  }

  /** One turn of the worklist. */
  method VisitNext(kids: seq<Entry>, listFails: set<Path>, startFails: set<Path>,
                   started0: seq<Job>, queue0: seq<Path>, ghost pending0: seq<Pending>)
    returns (ok: bool, started: seq<Job>, queue: seq<Path>, ghost pending: seq<Pending>)
    requires Unique(kids) && queue0 != [] && StartsFine(started0, startFails)
    requires Searching(kids, listFails, started0, queue0, pending0)
    ensures ok ==> Searching(kids, listFails, started, queue, pending) && StartsFine(started, startFails)
    ensures ok ==> PendingSize(pending) < PendingSize(pending0)
    ensures !ok ==>
      (exists p :: p in listFails && Contents(kids, p).Some?) || !StartsFine(Files(kids, []), startFails)
    ensures multiset(started) <= multiset(Files(kids, []))
    ensures forall i, j :: 0 <= i < j < |started| ==> |started[i].path| <= |started[j].path|
  {
    var path := queue0[0];
    PopTracks(kids, queue0, pending0);
    if path in listFails {
      StartedIsPart(started0, pending0, kids);
      return false, started0, queue0, pending0;
    }
    var directory := Contents(kids, path).value;
    PopLedger(started0, pending0, directory, path);
    ok, started, queue, pending := VisitDirectory(kids, path, directory, startFails,
                                                  started0, queue0[1..], pending0[1..]);
    LevelsGoOn(started0, queue0, started, queue);
    StartedIsPart(started, pending, kids);
    if ok {
      SearchGoesOn(kids, listFails, started0, queue0, pending0, directory, started, queue, pending);
    }
  }

  /** The worklist in the middle: nothing lost, failing directories ahead, level by level. */
  ghost predicate Searching(kids: seq<Entry>, listFails: set<Path>, started: seq<Job>, queue: seq<Path>,
                            pending: seq<Pending>)
  {
    && Tracks(kids, queue, pending) && Ledger(started, pending) == multiset(Files(kids, []))
    && FailuresAhead(kids, queue, listFails) && LevelByLevel(started, queue)
  }

  lemma PopLedger(started: seq<Job>, pending: seq<Pending>, directory: seq<Entry>, path: Path)
    requires pending != [] && pending[0] == Pending(path, directory)
    ensures Ledger(started, pending) == Ledger(started, pending[1..]) + multiset(Files(directory, path))
    ensures PendingSize(pending) == PendingSize(pending[1..]) + 1 + Size(directory)
  {
    assert pending == [pending[0]] + pending[1..];
    PendingFirst(pending[0], pending[1..]);
  }

  lemma SearchGoesOn(kids: seq<Entry>, listFails: set<Path>, started0: seq<Job>, queue0: seq<Path>,
                     pending0: seq<Pending>, directory: seq<Entry>,
                     started: seq<Job>, queue: seq<Path>, pending: seq<Pending>)
    requires queue0 != [] && Searching(kids, listFails, started0, queue0, pending0) && queue0[0] !in listFails
    requires pending0[0] == Pending(queue0[0], directory) && Contents(kids, queue0[0]) == Some(directory)
    requires Visiting(kids, queue0[0], directory, |directory|, queue0[1..], pending0[1..], queue, pending)
    requires Ledger(started, pending) == Ledger(started0, pending0[1..]) + multiset(Files(directory, queue0[0]))
    requires LevelByLevel(started, queue)
    ensures Searching(kids, listFails, started, queue, pending) && PendingSize(pending) < PendingSize(pending0)
  {
    PopLedger(started0, pending0, directory, queue0[0]);
    Visited(kids, queue0[0], directory, queue0[1..], pending0[1..], queue, pending);
    StillAhead(kids, queue0, queue, directory, listFails);
  }

  /** Jobs come level by level, and the queue holds what is left of one level before the next. */
  ghost predicate LevelByLevel(started: seq<Job>, queue: seq<Path>) {
    && (forall i, j :: 0 <= i < j < |started| ==> |started[i].path| <= |started[j].path|)
    && (forall i, j :: 0 <= i < j < |queue| ==> |queue[i]| <= |queue[j]| <= |queue[i]| + 1)
    && (forall i, j :: 0 <= i < |started| && 0 <= j < |queue| ==> |started[i].path| <= |queue[j]| + 1)
  }

  /** One directory's visit adds jobs and directories of the next level only. */
  ghost predicate NextLevel(started0: seq<Job>, queue0: seq<Path>, started: seq<Job>, queue: seq<Path>, level: nat) {
    && started0 <= started && (forall i :: |started0| <= i < |started| ==> |started[i].path| == level)
    && queue0 <= queue && (forall i :: |queue0| <= i < |queue| ==> |queue[i]| == level)
  }

  lemma LevelsGoOn(started0: seq<Job>, queued: seq<Path>, started: seq<Job>, queue: seq<Path>)
    requires queued != [] && LevelByLevel(started0, queued)
    requires NextLevel(started0, queued[1..], started, queue, |queued[0]| + 1)
    ensures LevelByLevel(started, queue)
  {
    var level := |queued[0]| + 1;
    forall i | 0 <= i < |queue| ensures level - 1 <= |queue[i]| <= level {
      if i < |queued| - 1 { assert queue[i] == queued[1..][i] == queued[i + 1]; }
    }
    forall i, j | 0 <= i < j < |queue| ensures |queue[i]| <= |queue[j]| {
      if j < |queued| - 1 {
        assert queue[i] == queued[i + 1] && queue[j] == queued[j + 1];
      } else if i < |queued| - 1 {
        assert |queue[j]| == level;
      }
    }
    forall i | 0 <= i < |started| ensures |started[i].path| <= level {
      if i < |started0| { assert started[i] == started0[i] && |started0[i].path| <= |queued[0]| + 1; }
    }
  }

  lemma RootIsAhead(kids: seq<Entry>, listFails: set<Path>)
    ensures FailuresAhead(kids, [[]], listFails)
  {
    var root: Path := [];
    forall p: Path ensures Ahead([[]], p) {
      assert root in [root] && root <= p;
    }
  }

  lemma StartedIsPart(started: seq<Job>, pending: seq<Pending>, kids: seq<Entry>)
    requires Ledger(started, pending) <= multiset(Files(kids, []))
    ensures multiset(started) <= multiset(Files(kids, []))
    ensures forall j :: j in started ==> j in Files(kids, [])
  {
    forall j | j in started ensures j in Files(kids, []) {
      assert j in multiset(started);
      assert j in multiset(Files(kids, []));
    }
  }

  lemma SameJobs(a: seq<Job>, b: seq<Job>)
    requires multiset(a) == multiset(b)
    ensures forall j :: j in a <==> j in b
  {
    forall j ensures j in a <==> j in b {
      assert j in multiset(a) <==> j in multiset(b);
    }
  }

  /** The subdirectories among the first `n` entries of a directory are in the queue. */
  ghost predicate Queued(queue: seq<Path>, path: Path, directory: seq<Entry>, n: nat)
    requires n <= |directory|
  {
    forall i :: 0 <= i < n && directory[i].Dir? ==> path + [directory[i].name] in queue
  }

  /** What the loop over a directory has made of the queue after `n` entries. */
  ghost predicate Visiting(kids: seq<Entry>, path: Path, directory: seq<Entry>, n: nat, queue0: seq<Path>,
                           pending0: seq<Pending>, queue: seq<Path>, pending: seq<Pending>)
    requires n <= |directory|
  {
    && Tracks(kids, queue, pending) && queue0 <= queue && Queued(queue, path, directory, n)
    && PendingSize(pending) <= PendingSize(pending0) + Size(directory[..n])
  }

  lemma Visited(kids: seq<Entry>, path: Path, directory: seq<Entry>, queue0: seq<Path>,
                pending0: seq<Pending>, queue: seq<Path>, pending: seq<Pending>)
    requires Visiting(kids, path, directory, |directory|, queue0, pending0, queue, pending)
    ensures Tracks(kids, queue, pending) && queue0 <= queue && Queued(queue, path, directory, |directory|)
    ensures PendingSize(pending) <= PendingSize(pending0) + Size(directory)
  {
    assert directory[..|directory|] == directory;
  }

  lemma NothingQueued(kids: seq<Entry>, path: Path, directory: seq<Entry>, i: nat, queue0: seq<Path>,
                      pending0: seq<Pending>, queue: seq<Path>, pending: seq<Pending>)
    requires i < |directory| && !directory[i].Dir?
    requires Visiting(kids, path, directory, i, queue0, pending0, queue, pending)
    ensures Visiting(kids, path, directory, i + 1, queue0, pending0, queue, pending)
  {
    PrefixGrows(directory, path, i);
  }

  lemma OneQueued(kids: seq<Entry>, path: Path, directory: seq<Entry>, i: nat, queue0: seq<Path>,
                  pending0: seq<Pending>, queue: seq<Path>, pending: seq<Pending>)
    requires Unique(kids) && Contents(kids, path) == Some(directory) && Unique(directory)
    requires i < |directory| && directory[i].Dir?
    requires Visiting(kids, path, directory, i, queue0, pending0, queue, pending)
    ensures var sub := path + [directory[i].name];
      Visiting(kids, path, directory, i + 1, queue0, pending0, queue + [sub],
               pending + [Pending(sub, directory[i].kids)])
  {
    QueueTracks(kids, path, directory, i, queue, pending);
    PrefixGrows(directory, path, i);
    PendingLast(pending, Pending(path + [directory[i].name], directory[i].kids));
  }

  lemma StartIsLast(started: seq<Job>, job: Job)
    requires started != [] && started[|started| - 1] == job
    ensures job in started
  {
  }

  /** Visiting the first of the queue keeps the failing directories ahead: below the one visited
      they are below one of its subdirectories. */
  lemma StillAhead(kids: seq<Entry>, queued: seq<Path>, queue: seq<Path>, directory: seq<Entry>, listFails: set<Path>)
    requires queued != [] && FailuresAhead(kids, queued, listFails) && queued[0] !in listFails
    requires Contents(kids, queued[0]) == Some(directory) && queued[1..] <= queue
    requires Queued(queue, queued[0], directory, |directory|)
    ensures FailuresAhead(kids, queue, listFails)
  {
    forall p | p in listFails && Contents(kids, p).Some? ensures Ahead(queue, p) {
      assert Ahead(queued, p);
      var q :| q in queued && q <= p;
      if q == queued[0] {
        assert q + p[|q|..] == p && (|p| == |q| ==> p == q);
        var i := ChildOnTheWay(kids, q, p[|q|..], directory);
        assert q + [directory[i].name] <= p;
      } else {
        assert queued == [queued[0]] + queued[1..];
        assert queue == queued[1..] + queue[|queued| - 1..];
        assert q in queue;
      }
    }
  }

  /** The way to a directory below another leads through a subdirectory of that one. */
  lemma {:induction false} ChildOnTheWay(kids: seq<Entry>, path: Path, more: Path, directory: seq<Entry>)
    returns (i: nat)
    requires Contents(kids, path) == Some(directory) && more != [] && Contents(kids, path + more).Some?
    ensures i < |directory| && directory[i].Dir? && directory[i].name == more[0]
    decreases |path|, kids
  {
    if path == [] {
      assert path + more == more;
      i := NamedDirectory(kids, more);
    } else {
      var last := kids[|kids| - 1];
      if last.name != path[0] {
        i := ChildOnTheWay(kids[..|kids| - 1], path, more, directory);
      } else {
        assert (path + more)[1..] == path[1..] + more;
        i := ChildOnTheWay(last.kids, path[1..], more, directory);
      }
    }
  }

  lemma {:induction false} NamedDirectory(kids: seq<Entry>, path: Path) returns (i: nat)
    requires path != [] && ContentsIn(kids, path).Some?
    ensures i < |kids| && kids[i].Dir? && kids[i].name == path[0]
  {
    if kids[|kids| - 1].name == path[0] {
      i := |kids| - 1;
    } else {
      i := NamedDirectory(kids[..|kids| - 1], path);
    }
  }

  lemma StartTracks(kids: seq<Entry>)
    requires Unique(kids)
    ensures Tracks(kids, [[]], [Pending([], kids)])
    ensures Ledger([], [Pending([], kids)]) == multiset(Files(kids, []))
  {
    var all := Pending([], kids);
    PendingLast([], all);
    assert [] + [all] == [all];
    assert PendingFiles([all]) == Files(kids, []) by { assert [] + Files(kids, []) == Files(kids, []); }
  }

  lemma PopTracks(kids: seq<Entry>, queue: seq<Path>, pending: seq<Pending>)
    requires Tracks(kids, queue, pending) && queue != []
    ensures Tracks(kids, queue[1..], pending[1..]) && pending[0].path == queue[0]
    ensures Contents(kids, queue[0]) == Some(pending[0].kids) && Unique(pending[0].kids)
    ensures multiset(PendingFiles(pending))
      == multiset(Files(pending[0].kids, queue[0])) + multiset(PendingFiles(pending[1..]))
    ensures PendingSize(pending) == 1 + Size(pending[0].kids) + PendingSize(pending[1..])
  {
    assert pending == [pending[0]] + pending[1..];
    PendingFirst(pending[0], pending[1..]);
  }

  /** The loop over one directory: starts its files, queues its subdirectories. */
  method VisitDirectory(kids: seq<Entry>, path: Path, directory: seq<Entry>, startFails: set<Path>,
                        started0: seq<Job>, queue0: seq<Path>, ghost pending0: seq<Pending>)
    returns (ok: bool, started: seq<Job>, queue: seq<Path>, ghost pending: seq<Pending>)
    requires Unique(kids) && Contents(kids, path) == Some(directory) && Unique(directory)
    requires Tracks(kids, queue0, pending0) && StartsFine(started0, startFails)
    ensures ok ==> Visiting(kids, path, directory, |directory|, queue0, pending0, queue, pending)
    ensures ok ==> Ledger(started, pending) == Ledger(started0, pending0) + multiset(Files(directory, path))
    ensures Ledger(started, pending) <= Ledger(started0, pending0) + multiset(Files(directory, path))
    ensures ok <==> StartsFine(started, startFails)
    ensures NextLevel(started0, queue0, started, queue, |path| + 1)
  {
    started, queue, pending := started0, queue0, pending0;
    ghost var base := Ledger(started, pending);
    for i := 0 to |directory|
      invariant Balanced(base, started, pending, directory, path, i) && StartsFine(started, startFails)
      invariant Visiting(kids, path, directory, i, queue0, pending0, queue, pending)
      invariant NextLevel(started0, queue0, started, queue, |path| + 1)
    {
      ghost var started1, queue1 := started, queue;
      ok, started, queue, pending := VisitEntry(kids, path, directory, i, startFails, base, queue0, pending0,
                                                started, queue, pending);
      SameLevel(started0, queue0, started1, queue1, started, queue, |path| + 1);
      if !ok {
        VisitStops(base, started, pending, directory, path, i + 1);
        return;
      }
    }
    VisitEnds(base, started, pending, directory, path);
    ok := true;
  }

  lemma SameLevel(started0: seq<Job>, queue0: seq<Path>, started1: seq<Job>, queue1: seq<Path>,
                  started: seq<Job>, queue: seq<Path>, level: nat)
    requires NextLevel(started0, queue0, started1, queue1, level) && NextLevel(started1, queue1, started, queue, level)
    ensures NextLevel(started0, queue0, started, queue, level)
  {
  }

  /** The switch on one entry's type. */
  method VisitEntry(kids: seq<Entry>, path: Path, directory: seq<Entry>, i: nat, startFails: set<Path>,
                    ghost base: multiset<Job>, ghost queue0: seq<Path>, ghost pending0: seq<Pending>,
                    started0: seq<Job>, queue1: seq<Path>, ghost pending1: seq<Pending>)
    returns (ok: bool, started: seq<Job>, queue: seq<Path>, ghost pending: seq<Pending>)
    requires Unique(kids) && Contents(kids, path) == Some(directory) && Unique(directory)
    requires i < |directory| && StartsFine(started0, startFails)
    requires Balanced(base, started0, pending1, directory, path, i)
    requires Visiting(kids, path, directory, i, queue0, pending0, queue1, pending1)
    ensures Balanced(base, started, pending, directory, path, i + 1)
    ensures Visiting(kids, path, directory, i + 1, queue0, pending0, queue, pending)
    ensures ok <==> StartsFine(started, startFails)
    ensures NextLevel(started0, queue1, started, queue, |path| + 1)
  {
    ok, started, queue, pending := true, started0, queue1, pending1;
    match directory[i]
    case File(name, url) =>
      VisitFile(base, started, pending, directory, path, i, Job(path + [name], url));
      NothingQueued(kids, path, directory, i, queue0, pending0, queue, pending);
      started := started + [Job(path + [name], url)];
      if path + [name] in startFails {
        StartIsLast(started, Job(path + [name], url));
        ok := false;
      }
    case Dir(name, inner) =>
      VisitDir(base, started, pending, directory, path, i);
      OneQueued(kids, path, directory, i, queue0, pending0, queue, pending);
      queue := queue + [path + [name]];
      pending := pending + [Pending(path + [name], inner)];
    case Other(_) =>
      VisitOther(base, started, pending, directory, path, i);
      NothingQueued(kids, path, directory, i, queue0, pending0, queue, pending);
  }

  lemma {:induction false} PrefixFiles(kids: seq<Entry>, n: nat, at: Path)
    requires n <= |kids|
    ensures multiset(Files(kids[..n], at)) <= multiset(Files(kids, at))
  {
    if n == |kids| {
      assert kids[..n] == kids;
    } else {
      assert kids[..|kids| - 1][..n] == kids[..n];
      PrefixFiles(kids[..|kids| - 1], n, at);
    }
  }

  /** The API lists a subdirectory under the path of its parent extended by its name. */
  lemma {:induction false} ContentsOfChild(kids: seq<Entry>, path: Path, directory: seq<Entry>, i: nat)
    requires Unique(kids) && Contents(kids, path) == Some(directory) && i < |directory| && directory[i].Dir?
    ensures Contents(kids, path + [directory[i].name]) == Some(directory[i].kids)
    decreases |path|, kids
  {
    var child := path + [directory[i].name];
    if path == [] {
      FindByName(kids, i, child);
    } else {
      var last := kids[|kids| - 1];
      if last.name != path[0] {
        ContentsOfChild(kids[..|kids| - 1], path, directory, i);
      } else {
        assert child[1..] == path[1..] + [directory[i].name];
        ContentsOfChild(last.kids, path[1..], directory, i);
      }
    }
  }

  lemma {:induction false} FindByName(kids: seq<Entry>, i: nat, path: Path)
    requires Unique(kids) && i < |kids| && kids[i].Dir? && path == [kids[i].name]
    ensures ContentsIn(kids, path) == Some(kids[i].kids)
  {
    if i < |kids| - 1 {
      FindByName(kids[..|kids| - 1], i, path);
    }
  }

  // ---------------------------------------------------------------------------
  // Each file once, nothing else

  lemma {:induction false} FilesAreBelow(kids: seq<Entry>, at: Path)
    ensures forall j :: j in Files(kids, at) ==> at < j.path
    ensures forall j :: j in Files(kids, at) ==> exists e :: e in kids && e.name == j.path[|at|]
    decreases kids
  {
    if kids != [] {
      var init, last := kids[..|kids| - 1], kids[|kids| - 1];
      FilesAreBelow(init, at);
      if last.Dir? {
        FilesAreBelow(last.kids, at + [last.name]);
      }
      forall j | j in Files(kids, at)
        ensures at < j.path && exists e :: e in kids && e.name == j.path[|at|]
      {
        if j in Files(init, at) {
          var e :| e in init && e.name == j.path[|at|];
          assert e in kids;
        } else {
          assert last in kids && j in EntryFiles(last, at);
          assert at + [last.name] <= j.path;
          assert j.path[|at|] == last.name;
        }
      }
    }
  }

  lemma {:induction false} NoSuchName(kids: seq<Entry>, path: Path)
    requires path != [] && forall i :: 0 <= i < |kids| ==> kids[i].name != path[0]
    ensures FileAt(kids, path) == None
  {
    if kids != [] {
      NoSuchName(kids[..|kids| - 1], path);
    }
  }

  /** The tree's file list holds each file exactly once. */
  lemma {:induction false} FilesAreExact(kids: seq<Entry>, at: Path, path: Path, url: string)
    requires Unique(kids)
    ensures multiset(Files(kids, at))[Job(at + path, url)] == if FileAt(kids, path) == Some(url) then 1 else 0
    decreases kids
  {
    if path == [] {
      FilesAreBelow(kids, at);
      assert Job(at + path, url) !in Files(kids, at);
    } else if kids != [] {
      var init, last := kids[..|kids| - 1], kids[|kids| - 1];
      FilesAreExact(init, at, path, url);
      EntryIsExact(last, at, path, url);
      if last.name == path[0] {
        NoSuchName(init, path);
      }
    }
  }

  lemma {:induction false} EntryIsExact(e: Entry, at: Path, path: Path, url: string)
    requires path != [] && (e.Dir? ==> Unique(e.kids))
    ensures multiset(EntryFiles(e, at))[Job(at + path, url)] ==
      if e.name == path[0] && FileAt([e], path) == Some(url) then 1 else 0
    decreases e
  {
    assert (at + path)[|at|] == path[0];
    match e
    case File(name, u) =>
      if at + path == at + [name] {
        assert (at + path)[|at|..] == path && (at + [name])[|at|..] == [name];
      }
    case Dir(name, inner) =>
      if name == path[0] {
        FilesAreExact(inner, at + [name], path[1..], url);
        assert at + [name] + path[1..] == at + path;
      } else {
        FilesAreBelow(inner, at + [name]);
        assert Job(at + path, url) !in Files(inner, at + [name]) by {
          assert (at + [name])[|at|] == name;
        }
      }
    case Other(_) =>
  }

  /** A successful run started exactly one download per file under the root, with the file's
      URL, and none for anything else. */
  lemma EachFileOnce(kids: seq<Entry>, started: seq<Job>, path: Path, url: string)
    requires Unique(kids) && multiset(started) == multiset(Files(kids, []))
    ensures multiset(started)[Job(path, url)] == if FileAt(kids, path) == Some(url) then 1 else 0
  {
    FilesAreExact(kids, [], path, url);
    assert [] + path == path;
  }

  // ---------------------------------------------------------------------------
  // Local paths

  /** The full path of an entry, as the API reports it. */
  function FullPath(root: string, path: Path): string {
    if root == [] || root[|root| - 1] == '/' then root + JoinPath(path) else root + "/" + JoinPath(path)
  }

  /** Where the file is written: the prefix trimmed, then joined to the current directory. */
  function LocalPath(root: string, path: Path): string {
    JoinDot(TrimPrefix(FullPath(root, path), root))
  }

  lemma LocalPathIsRelative(root: string, path: Path)
    requires path != [] && Names(path)
    ensures LocalPath(root, path) == JoinPath(path)
  {
    var joined := JoinPath(path);
    if root == [] || root[|root| - 1] == '/' {
      assert TrimPrefix(root + joined, root) == joined;
    } else {
      assert root + "/" + joined == root + ("/" + joined);
      assert TrimPrefix(root + ("/" + joined), root) == "/" + joined;
    }
    JoinDotCleans(path);
  }

  /** A leading slash makes no difference below the current directory. */
  lemma JoinDotCleans(path: Path)
    requires path != [] && Names(path)
    ensures JoinDot(JoinPath(path)) == JoinPath(path) && JoinDot("/" + JoinPath(path)) == JoinPath(path)
  {
    var joined := JoinPath(path);
    SplitJoin(path);
    CleanNames([], path);
    assert [] + path == path;
    SplitAfterDot(joined);
    SplitAfterDot("/" + joined);
    assert ("/" + joined)[1..] == joined;
    assert SplitPath("/" + joined) == [[]] + path && ([[]] + path)[1..] == path;
  }

  lemma SplitAfterDot(s: string)
    ensures SplitPath("./" + s) == ["."] + SplitPath(s)
    ensures CleanParts([], SplitPath("./" + s)) == CleanParts([], SplitPath(s))
  {
    assert "./" + s == "." + ("/" + s);
    SplitFromName([], ".", "/" + s);
    assert ("/" + s)[1..] == s && [] + "." == ".";
    assert (["."] + SplitPath(s))[1..] == SplitPath(s);
  }

  /** Distinct files go to distinct local paths, whatever the root. */
  lemma LocalPathsAreDistinct(root: string, a: Path, b: Path)
    requires a != [] && b != [] && Names(a) && Names(b)
    ensures LocalPath(root, a) == LocalPath(root, b) ==> a == b
  {
    LocalPathIsRelative(root, a);
    LocalPathIsRelative(root, b);
    SplitJoin(a);
    SplitJoin(b);
  }

  /** Every name in the tree is one a directory entry can have. */
  predicate ValidNames(kids: seq<Entry>) {
    kids == [] ||
      var last := kids[|kids| - 1];
      ValidNames(kids[..|kids| - 1]) && Name(last.name) && (last.Dir? ==> ValidNames(last.kids))
  }

  lemma {:induction false} FilesHaveNames(kids: seq<Entry>, at: Path)
    requires ValidNames(kids) && Names(at)
    ensures forall j :: j in Files(kids, at) ==> Names(j.path)
    decreases kids
  {
    if kids != [] {
      var last := kids[|kids| - 1];
      FilesHaveNames(kids[..|kids| - 1], at);
      if last.Dir? {
        FilesHaveNames(last.kids, at + [last.name]);
      }
    }
  }

  lemma {:induction false} TwiceInSeq<T>(s: seq<T>, i: nat, j: nat)
    requires i < j < |s| && s[i] == s[j]
    ensures multiset(s)[s[i]] >= 2
  {
    assert s == s[..j] + s[j..];
    assert s[i] in s[..j] by { assert s[..j][i] == s[i]; }
    assert s[j] in s[j..] by { assert s[j..][0] == s[j]; }
  }

  /** No two downloads of a successful run write to the same local path. */
  lemma DownloadsDoNotCollide(root: string, kids: seq<Entry>, started: seq<Job>, i: nat, j: nat)
    requires Unique(kids) && ValidNames(kids) && multiset(started) == multiset(Files(kids, []))
    requires i < j < |started|
    ensures LocalPath(root, started[i].path) != LocalPath(root, started[j].path)
  {
    var a, b := started[i], started[j];
    assert a in multiset(started) && b in multiset(started);
    FilesHaveNames(kids, []);
    FilesAreBelow(kids, []);
    if LocalPath(root, a.path) == LocalPath(root, b.path) {
      LocalPathsAreDistinct(root, a.path, b.path);
      EachFileOnce(kids, started, a.path, a.url);
      EachFileOnce(kids, started, b.path, b.url);
      assert a == b;
      TwiceInSeq(started, i, j);
    }
  }
}
