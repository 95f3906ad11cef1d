/** The launcher's native-binary cache: any number of processes that download, mirror, wait,
    steal stale locks and crash, interleaved one file-system operation at a time.
    Source: bin/cli.js. */
module LauncherCache {
  import opened Wrappers

  // ---------------------------------------------------------------------------
  // The shared file system and the processes

  type Pid = nat

  /** Age in milliseconds beyond which a lock counts as abandoned. */
  const STALE_AFTER := 15 * 60 * 1000

  /** A binary file: not there, half written, or whole. */
  datatype Binary = Missing | Partial | Complete

  /** The version's cache directory: whether it has any entry, the cached target, and the
      private files `<target>.tmp-<pid>` of mirroring processes. */
  datatype Root = Absent | Dir(occupied: bool, target: Binary, temps: map<Pid, Binary>)

  datatype Outcome = True | False | Threw

  /** The next file-system operation of a process. */
  datatype Pc =
    | Idle
    // runLockedDownload and acquireLock
    | CheckTarget | MakeLock | StatLock | StealRemove | StealMake | Recheck
    // downloadViaNpm
    | ClearTmp | MakeTmp | StartNpm(force: bool) | NpmRunning(force: bool) | FailCleanup
    | CheckInstalled | Publish | DropTmp | CheckAfterDrop
    // the end of runLockedDownload
    | FinalCheck | Release(result: Outcome) | Waiting | Done(result: Outcome)
    // mirrorToCache
    | MirrorCheck | MirrorMakeRoot | MirrorMakeBin | MirrorClearTmp | MirrorLink
    | MirrorCopy | MirrorCopying | MirrorRename
    | Crashed(at: Pc)

  /** `tmps[p]` is what the private directory `<root>.tmp-<p>` holds as the binary; `lock` is
      the modification time of the lock directory. */
  datatype State = State(root: Root, lock: Option<int>, tmps: map<Pid, Binary>, procs: map<Pid, Pc>, now: int)

  /** `Do` runs one operation of a process: `ok` is false when the operating system refuses it
      (or npm fails, or a wait runs out), `left` is what npm leaves behind when it exits. */
  datatype Event =
    | Do(p: Pid, ok: bool, left: Binary)
    | BeginDownload(p: Pid)
    | BeginMirror(p: Pid)
    | Crash(p: Pid)
    | Respawn(p: Pid)
    | OrphanWrites(p: Pid, left: Binary)
    | Clock(time: int)

  function PcOf(s: State, p: Pid): Pc {
    if p in s.procs then s.procs[p] else Idle
  }

  function At(s: State, p: Pid, pc: Pc): State {
    s.(procs := s.procs[p := pc])
  }

  function Target(s: State): Binary {
    if s.root.Absent? then Missing else s.root.target
  }

  /** `fs.existsSync(target)`. */
  predicate Present(s: State) {
    Target(s) != Missing
  }

  // ---------------------------------------------------------------------------
  // One operation

  predicate Stale(s: State) {
    s.lock.Some? && s.now - s.lock.value > STALE_AFTER
  }

  function LockStep(s: State, p: Pid, ok: bool): State {
    match PcOf(s, p)
    case CheckTarget => At(s, p, if Present(s) then Done(True) else MakeLock)
    case MakeLock =>
      if s.lock.Some? then At(s, p, StatLock)
      else if ok then At(s.(lock := Some(s.now)), p, Recheck)
      else At(s, p, Waiting)
    case StatLock => At(s, p, if ok && Stale(s) then StealRemove else Waiting)
    case StealRemove => if ok then At(s.(lock := None), p, StealMake) else At(s, p, Waiting)
    case StealMake =>
      if ok && s.lock.None? then At(s.(lock := Some(s.now)), p, Recheck) else At(s, p, Waiting)
    case Recheck => At(s, p, if Present(s) then Release(True) else ClearTmp)
    case FinalCheck => At(s, p, Release(if Present(s) then True else False))
    case Release(result) => At(if ok then s.(lock := None) else s, p, Done(result))
    case Waiting =>
      if Present(s) then At(s, p, Done(True)) else if ok then s else At(s, p, Done(False))
    case _ => s
  }

  /** npm exiting with status 0 leaves the binary whole or not at all. */
  function InstallStep(s: State, p: Pid, ok: bool, left: Binary): Option<State> {
    match PcOf(s, p)
    case ClearTmp =>
      Some(if ok then At(s.(tmps := s.tmps - {p}), p, MakeTmp) else At(s, p, Release(Threw)))
    case MakeTmp =>
      Some(if ok then At(s.(tmps := s.tmps[p := Missing]), p, StartNpm(false)) else At(s, p, Release(Threw)))
    case StartNpm(force) => Some(At(s.(tmps := s.tmps[p := Partial]), p, NpmRunning(force)))
    case NpmRunning(force) =>
      var t := s.(tmps := s.tmps[p := left]);
      if ok then (if left.Partial? then None else Some(At(t, p, CheckInstalled)))
      else Some(At(t, p, if force then FailCleanup else StartNpm(true)))
    case CheckInstalled =>
      Some(At(s, p, if p in s.tmps && s.tmps[p] != Missing then Publish else FailCleanup))
    case FailCleanup => Some(At(if ok then s.(tmps := s.tmps - {p}) else s, p, Release(Threw)))
    case Publish =>
      // rename of a directory succeeds only onto nothing or an empty directory
      if ok && (s.root.Absent? || !s.root.occupied) && p in s.tmps then
        Some(At(s.(root := Dir(true, s.tmps[p], map[]), tmps := s.tmps - {p}), p, FinalCheck))
      else Some(At(s, p, DropTmp))
    case DropTmp =>
      Some(if ok then At(s.(tmps := s.tmps - {p}), p, CheckAfterDrop) else At(s, p, Release(Threw)))
    case CheckAfterDrop => Some(At(s, p, if Present(s) then FinalCheck else Release(Threw)))
    case _ => None
  }

  function SetTemp(s: State, p: Pid, b: Binary): State
    requires s.root.Dir?
  {
    s.(root := s.root.(temps := s.root.temps[p := b]))
  }

  /** Best effort: any refused operation ends the mirroring. */
  function MirrorStep(s: State, p: Pid, ok: bool): State {
    match PcOf(s, p)
    case MirrorCheck => At(s, p, if Present(s) then Idle else MirrorMakeRoot)
    case MirrorMakeRoot =>
      if !ok then At(s, p, Idle)
      else At(if s.root.Absent? then s.(root := Dir(false, Missing, map[])) else s, p, MirrorMakeBin)
    case MirrorMakeBin =>
      if !ok || s.root.Absent? then At(s, p, Idle)
      else At(s.(root := s.root.(occupied := true)), p, MirrorClearTmp)
    case MirrorClearTmp =>
      if !ok || s.root.Absent? then At(s, p, Idle)
      else At(s.(root := s.root.(temps := s.root.temps - {p})), p, MirrorLink)
    case MirrorLink =>
      if ok && s.root.Dir? && s.root.occupied then At(SetTemp(s, p, Complete), p, MirrorRename)
      else At(s, p, MirrorCopy)
    case MirrorCopy =>
      if ok && s.root.Dir? && s.root.occupied then At(SetTemp(s, p, Partial), p, MirrorCopying)
      else At(s, p, Idle)
    case MirrorCopying =>
      if ok && s.root.Dir? && p in s.root.temps then At(SetTemp(s, p, Complete), p, MirrorRename)
      else At(s, p, Idle)
    case MirrorRename =>
      if ok && s.root.Dir? && p in s.root.temps then
        At(s.(root := Dir(s.root.occupied, s.root.temps[p], s.root.temps - {p})), p, Idle)
      else At(s, p, Idle)
    case _ => s
  }

  predicate LockPc(pc: Pc) {
    || pc.CheckTarget? || pc.MakeLock? || pc.StatLock? || pc.StealRemove? || pc.StealMake?
    || pc.Recheck? || pc.FinalCheck? || pc.Release? || pc.Waiting?
  }

  predicate MirrorPc(pc: Pc) {
    || pc.MirrorCheck? || pc.MirrorMakeRoot? || pc.MirrorMakeBin? || pc.MirrorClearTmp?
    || pc.MirrorLink? || pc.MirrorCopy? || pc.MirrorCopying? || pc.MirrorRename?
  }

  /** The state after one event, None when the event cannot happen. */
  function Apply(s: State, e: Event): Option<State> {
    match e
    case Do(p, ok, left) =>
      if LockPc(PcOf(s, p)) then Some(LockStep(s, p, ok))
      else if MirrorPc(PcOf(s, p)) then Some(MirrorStep(s, p, ok))
      else InstallStep(s, p, ok, left)
    case BeginDownload(p) =>
      if PcOf(s, p).Idle? || PcOf(s, p).Done? then Some(At(s, p, CheckTarget)) else None
    case BeginMirror(p) =>
      if PcOf(s, p).Idle? || PcOf(s, p).Done? then Some(At(s, p, MirrorCheck)) else None
    case Crash(p) => if PcOf(s, p).Crashed? then None else Some(At(s, p, Crashed(PcOf(s, p))))
    case Respawn(p) => if PcOf(s, p).Crashed? then Some(At(s, p, Idle)) else None
    case OrphanWrites(p, left) =>
      // the npm child of a killed launcher may keep writing to its private directory
      if PcOf(s, p).Crashed? && PcOf(s, p).at.NpmRunning? then Some(s.(tmps := s.tmps[p := left])) else None
    case Clock(time) => Some(s.(now := time))
  }

  function Exec(s: State, events: seq<Event>): Option<State>
    decreases events
  {
    if events == [] then Some(s)
    else match Apply(s, events[0])
      case None => None
      case Some(t) => Exec(t, events[1..])
  }

  /** No cache, no lock, no process. */
  function Fresh(now: int): State {
    State(Absent, None, map[], map[], now)
  }

  // ---------------------------------------------------------------------------
  // Publication safety: in every interleaving, stealing included

  predicate ProcSafe(s: State, p: Pid) {
    match PcOf(s, p)
    case CheckInstalled => p in s.tmps && s.tmps[p] != Partial
    case Publish => p in s.tmps && s.tmps[p] == Complete
    case MirrorRename => s.root.Dir? && p in s.root.temps && s.root.temps[p] == Complete
    case Release(result) => result == True ==> Present(s)
    case Done(result) => result == True ==> Present(s)
    case _ => true
  }

  predicate RootSafe(root: Root) {
    root.Dir? ==>
      && root.target != Partial
      && (root.target != Missing || root.temps != map[] ==> root.occupied)
  }

  ghost predicate Safe(s: State) {
    RootSafe(s.root) && forall p :: ProcSafe(s, p)
  }

  /** What one process does is invisible to the obligations of the others, as long as a present
      target stays and private files are left alone. */
  lemma OthersStaySafe(s: State, t: State, p: Pid)
    requires Safe(s) && RootSafe(t.root)
    requires forall q :: q != p ==> PcOf(t, q) == PcOf(s, q)
    requires Present(s) ==> Present(t)
    requires forall q :: q != p && q in s.tmps ==> q in t.tmps && t.tmps[q] == s.tmps[q]
    requires s.root.Dir? ==> forall q :: q != p && q in s.root.temps ==>
      t.root.Dir? && q in t.root.temps && t.root.temps[q] == s.root.temps[q]
    requires ProcSafe(t, p)
    ensures Safe(t)
  {
    forall q ensures ProcSafe(t, q) {
      if q != p { assert ProcSafe(s, q); }
    }
  }

  lemma LockStepSafe(s: State, p: Pid, ok: bool)
    requires Safe(s) && LockPc(PcOf(s, p))
    ensures Safe(LockStep(s, p, ok)) && LockStep(s, p, ok).root == s.root
  {
    assert ProcSafe(s, p);
    OthersStaySafe(s, LockStep(s, p, ok), p);
  }

  lemma InstallStepSafe(s: State, p: Pid, ok: bool, left: Binary)
    requires Safe(s) && InstallStep(s, p, ok, left).Some?
    ensures Safe(InstallStep(s, p, ok, left).value)
    ensures Present(s) ==> Present(InstallStep(s, p, ok, left).value)
  {
    assert ProcSafe(s, p);
    OthersStaySafe(s, InstallStep(s, p, ok, left).value, p);
  }

  lemma MirrorStepSafe(s: State, p: Pid, ok: bool)
    requires Safe(s) && MirrorPc(PcOf(s, p))
    ensures Safe(MirrorStep(s, p, ok))
    ensures Present(s) ==> Present(MirrorStep(s, p, ok))
  {
    assert ProcSafe(s, p);
    OthersStaySafe(s, MirrorStep(s, p, ok), p);
  }

  lemma ApplySafe(s: State, e: Event)
    requires Safe(s) && Apply(s, e).Some?
    ensures Safe(Apply(s, e).value)
    ensures Present(s) ==> Present(Apply(s, e).value)
  {
    var t := Apply(s, e).value;
    match e
    case Do(p, ok, left) =>
      if LockPc(PcOf(s, p)) { LockStepSafe(s, p, ok); }
      else if MirrorPc(PcOf(s, p)) { MirrorStepSafe(s, p, ok); }
      else { InstallStepSafe(s, p, ok, left); }
    case Clock(time) =>
      forall q ensures ProcSafe(t, q) { assert ProcSafe(s, q); }
    case _ => OthersStaySafe(s, t, e.p);
  }

  lemma {:induction false} ExecSafe(s: State, events: seq<Event>)
    requires Safe(s) && Exec(s, events).Some?
    ensures Safe(Exec(s, events).value)
    ensures Present(s) ==> Present(Exec(s, events).value)
    decreases events
  {
    if events != [] {
      ApplySafe(s, events[0]);
      ExecSafe(Apply(s, events[0]).value, events[1..]);
    }
  }

  /** In every run of any number of launchers, with crashes and lock stealing: the target is
      absent or a whole binary, a present target never disappears, and a download that
      returned true leaves it present. */
  lemma PublicationSafety(now: int, before: seq<Event>, after: seq<Event>)
    requires Exec(Fresh(now), before).Some?
    requires Exec(Exec(Fresh(now), before).value, after).Some?
    ensures var s := Exec(Fresh(now), before).value;
      var t := Exec(s, after).value;
      && Target(s) in {Missing, Complete}
      && (Present(s) ==> Target(t) == Complete)
      && forall p :: PcOf(s, p) == Done(True) ==> Target(s) == Complete && Target(t) == Complete
  {
    var s := Exec(Fresh(now), before).value;
    ExecSafe(Fresh(now), before);
    ExecSafe(s, after);
    forall p | PcOf(s, p) == Done(True) ensures Present(s) {
      assert ProcSafe(s, p);
    }
  }

  // ---------------------------------------------------------------------------
  // What a launcher answers

  function Go(p: Pid): Event {
    Do(p, true, Missing)
  }

  /** The outcome of a download is decided: the answer is on its way out, the install has failed,
      or the launcher still looks at the target, which is there. */
  predicate Settled(s: State, p: Pid, r: Outcome) {
    match PcOf(s, p)
    case Done(x) => x == r
    case Release(x) => x == r
    case FailCleanup => r == Threw
    case CheckTarget => r == True && Present(s)
    case MakeLock => r == True && Present(s)
    case StatLock => r == True && Present(s)
    case StealRemove => r == True && Present(s)
    case StealMake => r == True && Present(s)
    case Recheck => r == True && Present(s)
    case CheckAfterDrop => r == True && Present(s)
    case FinalCheck => r == True && Present(s)
    case Waiting => r == True && Present(s)
    case _ => false
  }

  /** The run neither kills `p` nor has it begin anew. */
  predicate LetsFinish(events: seq<Event>, p: Pid) {
    forall i :: 0 <= i < |events| ==>
      events[i] != Crash(p) && events[i] != BeginDownload(p) && events[i] != BeginMirror(p)
  }

  lemma StepStaysSettled(s: State, p: Pid, ok: bool, left: Binary, r: Outcome)
    requires Settled(s, p, r) && Apply(s, Do(p, ok, left)).Some?
    ensures Settled(Apply(s, Do(p, ok, left)).value, p, r)
  {
    if LockPc(PcOf(s, p)) {
      assert Settled(LockStep(s, p, ok), p, r);
    } else {
      assert PcOf(s, p).FailCleanup? || PcOf(s, p).CheckAfterDrop?;
    }
  }

  /** Whatever the others do, and however the operating system answers, a settled launcher that
      finishes gives the answer it was settled for. */
  lemma {:induction false} StaysSettled(s: State, events: seq<Event>, p: Pid, r: Outcome)
    requires Safe(s) && Settled(s, p, r) && LetsFinish(events, p) && Exec(s, events).Some?
    ensures Settled(Exec(s, events).value, p, r)
    decreases events
  {
    if events != [] {
      var e, t := events[0], Apply(s, events[0]).value;
      ApplySafe(s, e);
      if e.Do? && e.p == p {
        StepStaysSettled(s, p, e.ok, e.left, r);
      } else if !e.Clock? {
        OthersKeepTheirPlace(s, e);
      }
      StaysSettled(t, events[1..], p, r);
    }
  }

  /** How far a settled launcher is from its answer. */
  function Distance(pc: Pc): nat {
    match pc
    case Done(_) => 0
    case Release(_) => 1
    case Waiting => 1
    case Recheck => 2
    case FinalCheck => 2
    case FailCleanup => 2
    case CheckAfterDrop => 3
    case StealMake => 4
    case StealRemove => 5
    case StatLock => 6
    case MakeLock => 7
    case _ => 8
  }

  /** Left alone, a settled launcher does finish. */
  lemma {:induction false} FinishesAlone(s: State, p: Pid, r: Outcome) returns (run: seq<Event>, t: State)
    requires Settled(s, p, r)
    ensures Exec(s, run) == Some(t) && PcOf(t, p) == Done(r) && Target(t) == Target(s)
    ensures forall e :: e in run ==> e == Go(p)
    decreases Distance(PcOf(s, p))
  {
    if PcOf(s, p).Done? {
      run, t := [], s;
    } else {
      var u := Apply(s, Go(p)).value;
      StepStaysSettled(s, p, true, Missing, r);
      GetsCloser(s, p, r);
      var more: seq<Event>;
      more, t := FinishesAlone(u, p, r);
      run := [Go(p)] + more;
      assert run[1..] == more;
    }
  }

  lemma GetsCloser(s: State, p: Pid, r: Outcome)
    requires Settled(s, p, r) && !PcOf(s, p).Done?
    ensures Apply(s, Go(p)).Some?
    ensures var u := Apply(s, Go(p)).value;
      Distance(PcOf(u, p)) < Distance(PcOf(s, p)) && u.root == s.root
  {
    if LockPc(PcOf(s, p)) {
      assert Distance(PcOf(LockStep(s, p, true), p)) < Distance(PcOf(s, p));
    }
  }

  /** A launcher that looks for the target while it is there answers true: at the first look, in
      the middle of acquiring or stealing the lock, at the re-check, after publishing, or waiting
      for another's download; it can finish, and in no run does it finish otherwise. */
  lemma PresentTargetIsFound(s: State, p: Pid, events: seq<Event>)
    requires Safe(s) && Present(s) && LetsFinish(events, p) && Exec(s, events).Some?
    requires var pc := PcOf(s, p);
      || pc.CheckTarget? || pc.MakeLock? || pc.StatLock? || pc.StealRemove? || pc.StealMake?
      || pc.Recheck? || pc.FinalCheck? || pc.Waiting?
    ensures var pc := PcOf(Exec(s, events).value, p);
      && (pc.Done? ==> pc == Done(True))
      && exists run, t :: Exec(Exec(s, events).value, run) == Some(t) && PcOf(t, p) == Done(True)
  {
    StaysSettled(s, events, p, True);
    var run, t := FinishesAlone(Exec(s, events).value, p, True);
  }

  /** A launcher comes to the answer false exactly by not finding the target: after publishing or
      when its wait runs out. Whatever the operating system or npm refuses, it throws. */
  lemma FalseExactly(s: State, p: Pid, ok: bool, left: Binary)
    requires Apply(s, Do(p, ok, left)).Some? && !PcOf(s, p).Release?
    ensures PcOf(Apply(s, Do(p, ok, left)).value, p) in {Release(False), Done(False)} <==>
      (PcOf(s, p).FinalCheck? || (PcOf(s, p).Waiting? && !ok)) && !Present(s)
  {
    var t := Apply(s, Do(p, ok, left)).value;
    if LockPc(PcOf(s, p)) {
      assert t == LockStep(s, p, ok);
    } else if MirrorPc(PcOf(s, p)) {
      MirrorNeverAnswers(s, p, ok);
    } else {
      InstallNeverAnswersFalse(s, p, ok, left);
    }
  }

  lemma MirrorNeverAnswers(s: State, p: Pid, ok: bool)
    requires MirrorPc(PcOf(s, p))
    ensures var pc := PcOf(MirrorStep(s, p, ok), p);
      !pc.Release? && !pc.Done?
  {
  }

  lemma InstallNeverAnswersFalse(s: State, p: Pid, ok: bool, left: Binary)
    requires InstallStep(s, p, ok, left).Some?
    ensures var pc := PcOf(InstallStep(s, p, ok, left).value, p);
      !pc.Done? && (pc.Release? ==> pc == Release(Threw))
  {
  }

  /** A finished install, renamed with the operating system's consent: the launcher on its own
      answers true if the cache directory was absent or empty or already held the target, and
      throws if another process has put anything else there. */
  lemma PublishDecides(s: State, p: Pid) returns (run: seq<Event>, t: State)
    requires Safe(s) && PcOf(s, p).Publish?
    ensures Exec(s, run) == Some(t)
    ensures PcOf(t, p) ==
      Done(if s.root.Absent? || !s.root.occupied || s.root.target == Complete then True else Threw)
    ensures Present(t) <==> PcOf(t, p) == Done(True)
  {
    assert ProcSafe(s, p);
    var more: seq<Event>;
    if s.root.Absent? || !s.root.occupied {
      var u := At(s.(root := Dir(true, Complete, map[]), tmps := s.tmps - {p}), p, FinalCheck);
      assert InstallStep(s, p, true, Missing) == Some(u);
      more, t := FinishesAlone(u, p, True);
      ExecCons(s, Go(p), u, more);
    } else {
      var u := At(s, p, DropTmp);
      assert InstallStep(s, p, true, Missing) == Some(u);
      more, t := DropDecides(u, p);
      ExecCons(s, Go(p), u, more);
    }
    run := [Go(p)] + more;
  }

  lemma ExecCons(s: State, e: Event, t: State, events: seq<Event>)
    requires Apply(s, e) == Some(t)
    ensures Exec(s, [e] + events) == Exec(t, events)
  {
    assert ([e] + events)[1..] == events;
  }

  /** The end of a refused publication. */
  lemma DropDecides(s: State, p: Pid) returns (run: seq<Event>, t: State)
    requires PcOf(s, p).DropTmp?
    ensures Exec(s, run) == Some(t) && Target(t) == Target(s)
    ensures PcOf(t, p) == Done(if Present(s) then True else Threw)
  {
    var u := At(s.(tmps := s.tmps - {p}), p, CheckAfterDrop);
    var v := At(u, p, Release(Threw));
    var more: seq<Event>;
    assert InstallStep(s, p, true, Missing) == Some(u);
    if Present(s) {
      more, t := FinishesAlone(u, p, True);
    } else {
      assert InstallStep(u, p, true, Missing) == Some(v);
      more, t := FinishesAlone(v, p, Threw);
      ExecCons(u, Go(p), v, more);
      more := [Go(p)] + more;
    }
    ExecCons(s, Go(p), u, more);
    run := [Go(p)] + more;
  }

  // ---------------------------------------------------------------------------
  // Single flight: in every run in which nobody sees a stale lock

  predicate ObservesStale(s: State, e: Event) {
    e.Do? && PcOf(s, e.p).StatLock? && e.ok && Stale(s)
  }

  predicate NeverStale(s: State, events: seq<Event>)
    decreases events
  {
    events == [] ||
      (!ObservesStale(s, events[0]) &&
       (Apply(s, events[0]).Some? ==> NeverStale(Apply(s, events[0]).value, events[1..])))
  }

  /** Between a successful acquireLock and the end of the release, also when killed there. */
  predicate HoldsLock(pc: Pc) {
    || pc.Recheck? || pc.ClearTmp? || pc.MakeTmp? || pc.StartNpm? || pc.NpmRunning?
    || pc.FailCleanup? || pc.CheckInstalled? || pc.Publish? || pc.DropTmp? || pc.CheckAfterDrop?
    || pc.FinalCheck? || pc.Release? || (pc.Crashed? && HoldsLock(pc.at))
  }

  predicate Stealing(pc: Pc) {
    pc.StealRemove? || pc.StealMake?
  }

  ghost predicate OneHolder(s: State) {
    && (forall p :: HoldsLock(PcOf(s, p)) ==> s.lock.Some?)
    && (forall p, q :: HoldsLock(PcOf(s, p)) && HoldsLock(PcOf(s, q)) ==> p == q)
    && (forall p :: !Stealing(PcOf(s, p)))
  }

  /** How a step of `p` may touch the lock: keep it, drop it when leaving as its holder, or
      take it when nobody has it. */
  predicate LockMove(s: State, t: State, p: Pid) {
    var before, after := HoldsLock(PcOf(s, p)), HoldsLock(PcOf(t, p));
    && !Stealing(PcOf(t, p))
    && (before ==> !after || t.lock == s.lock)
    && (!before && !after ==> t.lock == s.lock)
    && (!before && after ==> s.lock.None? && t.lock.Some?)
  }

  lemma LockMoveKeepsOneHolder(s: State, t: State, p: Pid)
    requires OneHolder(s) && LockMove(s, t, p)
    requires forall q :: q != p ==> PcOf(t, q) == PcOf(s, q)
    ensures OneHolder(t)
  {
    if HoldsLock(PcOf(s, p)) {
      forall q | q != p ensures !HoldsLock(PcOf(t, q)) {
        assert HoldsLock(PcOf(s, q)) ==> q == p;
      }
    } else if HoldsLock(PcOf(t, p)) {
      forall q ensures !HoldsLock(PcOf(s, q)) {}
    }
    forall q ensures !Stealing(PcOf(t, q)) {
      assert !Stealing(PcOf(s, q));
    }
  }

  lemma LockStepMovesLock(s: State, p: Pid, ok: bool)
    requires LockPc(PcOf(s, p)) && !Stealing(PcOf(s, p)) && !ObservesStale(s, Do(p, ok, Missing))
    ensures LockMove(s, LockStep(s, p, ok), p)
  {
  }

  lemma InstallStepMovesLock(s: State, p: Pid, ok: bool, left: Binary)
    requires InstallStep(s, p, ok, left).Some?
    ensures LockMove(s, InstallStep(s, p, ok, left).value, p)
  {
  }

  lemma MirrorStepMovesLock(s: State, p: Pid, ok: bool)
    requires MirrorPc(PcOf(s, p))
    ensures LockMove(s, MirrorStep(s, p, ok), p)
  {
  }

  lemma DoMovesLock(s: State, p: Pid, ok: bool, left: Binary)
    requires Apply(s, Do(p, ok, left)).Some? && !ObservesStale(s, Do(p, ok, left))
    requires !Stealing(PcOf(s, p))
    ensures LockMove(s, Apply(s, Do(p, ok, left)).value, p)
  {
    if LockPc(PcOf(s, p)) {
      LockStepMovesLock(s, p, ok);
    } else if MirrorPc(PcOf(s, p)) {
      MirrorStepMovesLock(s, p, ok);
    } else {
      InstallStepMovesLock(s, p, ok, left);
    }
  }

  /** Of all processes, only `p` may have moved on. */
  predicate MovesOnly(s: State, t: State, p: Pid) {
    t.procs == s.procs || (p in t.procs && t.procs == s.procs[p := t.procs[p]])
  }

  lemma DoMovesOnly(s: State, p: Pid, ok: bool, left: Binary)
    requires Apply(s, Do(p, ok, left)).Some?
    ensures MovesOnly(s, Apply(s, Do(p, ok, left)).value, p)
  {
    if LockPc(PcOf(s, p)) {
      assert MovesOnly(s, LockStep(s, p, ok), p);
    } else if MirrorPc(PcOf(s, p)) {
      assert MovesOnly(s, MirrorStep(s, p, ok), p);
    } else {
      assert MovesOnly(s, InstallStep(s, p, ok, left).value, p);
    }
  }

  lemma OthersKeepTheirPlace(s: State, e: Event)
    requires Apply(s, e).Some? && !e.Clock?
    ensures forall q :: q != e.p ==> PcOf(Apply(s, e).value, q) == PcOf(s, q)
  {
    if e.Do? { DoMovesOnly(s, e.p, e.ok, e.left); }
    assert MovesOnly(s, Apply(s, e).value, e.p);
  }

  /** Beginning, crashing, respawning and orphan writes never acquire the lock. */
  lemma OtherEventsMoveLock(s: State, e: Event)
    requires Apply(s, e).Some? && !e.Clock? && !e.Do?
    requires !Stealing(PcOf(s, e.p))
    ensures LockMove(s, Apply(s, e).value, e.p)
  {
  }

  lemma ApplyKeepsOneHolder(s: State, e: Event)
    requires OneHolder(s) && Apply(s, e).Some? && !ObservesStale(s, e)
    ensures OneHolder(Apply(s, e).value)
  {
    if e.Clock? {
      ClockKeepsOneHolder(s, e.time);
    } else {
      assert !Stealing(PcOf(s, e.p));
      if e.Do? { DoMovesLock(s, e.p, e.ok, e.left); } else { OtherEventsMoveLock(s, e); }
      OthersKeepTheirPlace(s, e);
      LockMoveKeepsOneHolder(s, Apply(s, e).value, e.p);
    }
  }

  lemma ClockKeepsOneHolder(s: State, time: int)
    requires OneHolder(s)
    ensures OneHolder(s.(now := time))
  {
    assert forall q :: PcOf(s.(now := time), q) == PcOf(s, q);
  }

  lemma {:induction false} ExecKeepsOneHolder(s: State, events: seq<Event>)
    requires OneHolder(s) && Exec(s, events).Some? && NeverStale(s, events)
    ensures OneHolder(Exec(s, events).value)
    decreases events
  {
    if events != [] {
      ApplyKeepsOneHolder(s, events[0]);
      ExecKeepsOneHolder(Apply(s, events[0]).value, events[1..]);
    }
  }

  /** At most one process, dead or alive, is between acquiring and releasing the lock. */
  lemma MutualExclusion(now: int, events: seq<Event>, p: Pid, q: Pid)
    requires Exec(Fresh(now), events).Some? && NeverStale(Fresh(now), events)
    requires HoldsLock(PcOf(Exec(Fresh(now), events).value, p))
    requires HoldsLock(PcOf(Exec(Fresh(now), events).value, q))
    ensures p == q
  {
    ExecKeepsOneHolder(Fresh(now), events);
  }

  /** No clock event leaves the fifteen minutes from `start` on. */
  predicate WithinFifteenMinutes(start: int, events: seq<Event>) {
    forall i :: 0 <= i < |events| && events[i].Clock? ==> start <= events[i].time <= start + 900_000
  }

  /** The lock and the clock are of these fifteen minutes. */
  predicate Recent(s: State, start: int) {
    && start <= s.now <= start + 900_000
    && (s.lock.Some? ==> start <= s.lock.value)
  }

  lemma RecentStays(s: State, e: Event, start: int)
    requires Recent(s, start) && Apply(s, e).Some?
    requires e.Clock? ==> start <= e.time <= start + 900_000
    ensures Recent(Apply(s, e).value, start)
  {
    if e.Do? && LockPc(PcOf(s, e.p)) {
      assert Recent(LockStep(s, e.p, e.ok), start);
    } else if e.Do? && MirrorPc(PcOf(s, e.p)) {
      MirrorKeepsLock(s, e.p, e.ok);
    } else if e.Do? {
      InstallKeepsLock(s, e.p, e.ok, e.left);
    }
  }

  lemma InstallKeepsLock(s: State, p: Pid, ok: bool, left: Binary)
    requires InstallStep(s, p, ok, left).Some?
    ensures var t := InstallStep(s, p, ok, left).value;
      t.lock == s.lock && t.now == s.now
  {
  }

  lemma {:induction false} RecentIsNeverStale(s: State, events: seq<Event>, start: int)
    requires Recent(s, start) && WithinFifteenMinutes(start, events)
    ensures NeverStale(s, events)
    decreases events
  {
    if events != [] && Apply(s, events[0]).Some? {
      RecentStays(s, events[0], start);
      RecentIsNeverStale(Apply(s, events[0]).value, events[1..], start);
    }
  }

  /** Within any fifteen minutes, 900 000 milliseconds, at most one process has the lock. */
  lemma SingleFlightForFifteenMinutes(now: int, events: seq<Event>, p: Pid, q: Pid)
    requires Exec(Fresh(now), events).Some? && WithinFifteenMinutes(now, events)
    requires HoldsLock(PcOf(Exec(Fresh(now), events).value, p))
    requires HoldsLock(PcOf(Exec(Fresh(now), events).value, q))
    ensures p == q
  {
    RecentIsNeverStale(Fresh(now), events, now);
    MutualExclusion(now, events, p, q);
  }

  /** The event renames a finished npm install into place. */
  predicate Publishes(s: State, e: Event) {
    && e.Do? && PcOf(s, e.p).Publish? && Apply(s, e).Some?
    && PcOf(Apply(s, e).value, e.p).FinalCheck?
  }

  predicate StartsNpm(s: State, e: Event) {
    e.Do? && PcOf(s, e.p).StartNpm?
  }

  /** A process that may still start npm without re-checking the target. */
  predicate MayInstall(pc: Pc) {
    pc.ClearTmp? || pc.MakeTmp? || pc.StartNpm? || (pc.NpmRunning? && !pc.force)
  }

  ghost predicate Sealed(s: State) {
    Present(s) && forall p :: !MayInstall(PcOf(s, p))
  }

  /** Only a process that re-checks and finds no target becomes able to install. */
  lemma NobodyStartsInstalling(s: State, e: Event)
    requires Present(s) && Apply(s, e).Some? && !e.Clock? && !MayInstall(PcOf(s, e.p))
    ensures !MayInstall(PcOf(Apply(s, e).value, e.p))
  {
    if e.Do? && LockPc(PcOf(s, e.p)) {
      assert !MayInstall(PcOf(LockStep(s, e.p, e.ok), e.p));
    } else if e.Do? && MirrorPc(PcOf(s, e.p)) {
      assert !MayInstall(PcOf(MirrorStep(s, e.p, e.ok), e.p));
    }
  }

  lemma {:induction false} ExecStaysSealed(s: State, events: seq<Event>)
    requires Safe(s) && Sealed(s) && Exec(s, events).Some?
    ensures Sealed(Exec(s, events).value)
    decreases events
  {
    if events != [] {
      var e, t := events[0], Apply(s, events[0]).value;
      ApplySafe(s, e);
      if !e.Clock? {
        NobodyStartsInstalling(s, e);
        OthersKeepTheirPlace(s, e);
      }
      forall q ensures !MayInstall(PcOf(t, q)) {
        assert !MayInstall(PcOf(s, q));
      }
      ExecStaysSealed(t, events[1..]);
    }
  }

  lemma {:induction false} ExecConcat(s: State, a: seq<Event>, b: seq<Event>)
    requires Exec(s, a).Some?
    ensures Exec(s, a + b) == Exec(Exec(s, a).value, b)
    ensures NeverStale(s, a + b) ==> NeverStale(s, a) && NeverStale(Exec(s, a).value, b)
    decreases a
  {
    if a == [] {
      assert a + b == b;
    } else {
      assert (a + b)[1..] == a[1..] + b;
      ExecConcat(Apply(s, a[0]).value, a[1..], b);
    }
  }

  /** Once one npm install has been published, no process ever starts another. */
  lemma NoInstallAfterPublication(now: int, a: seq<Event>, e: Event, b: seq<Event>, f: Event)
    requires Exec(Fresh(now), a).Some? && NeverStale(Fresh(now), a)
    requires Publishes(Exec(Fresh(now), a).value, e)
    requires Exec(Apply(Exec(Fresh(now), a).value, e).value, b).Some?
    ensures !StartsNpm(Exec(Apply(Exec(Fresh(now), a).value, e).value, b).value, f)
  {
    var s := Exec(Fresh(now), a).value;
    var t := Apply(s, e).value;
    ExecSafe(Fresh(now), a);
    ExecKeepsOneHolder(Fresh(now), a);
    ApplySafe(s, e);
    assert ProcSafe(s, e.p);
    forall q ensures !MayInstall(PcOf(t, q)) {
      if q != e.p && MayInstall(PcOf(t, q)) {
        assert HoldsLock(PcOf(s, q)) && HoldsLock(PcOf(s, e.p));
      }
    }
    ExecStaysSealed(t, b);
  }

  /** From `s` some run reaches the start of an npm install. */
  ghost predicate CanStartNpm(s: State) {
    exists run, e :: Exec(s, run).Some? && StartsNpm(Exec(s, run).value, e)
  }

  /** In any state with the target present, however it came about: an npm install can still start
      if and only if a process is past the re-check and has an attempt left. */
  lemma InstallsAgainExactly(s: State)
    requires Safe(s) && Present(s)
    ensures CanStartNpm(s) <==> exists p :: MayInstall(PcOf(s, p))
  {
    if p :| MayInstall(PcOf(s, p)) {
      var run := ReachesNpm(s, p);
      assert StartsNpm(Exec(s, run).value, Works(p));
    } else if CanStartNpm(s) {
      var run, e :| Exec(s, run).Some? && StartsNpm(Exec(s, run).value, e);
      ExecStaysSealed(s, run);
    }
  }

  lemma ReachesNpm(s: State, p: Pid) returns (run: seq<Event>)
    requires MayInstall(PcOf(s, p))
    ensures Exec(s, run).Some? && PcOf(Exec(s, run).value, p).StartNpm?
  {
    match PcOf(s, p)
    case ClearTmp =>
      var t := InstallStep(s, p, true, Complete).value;
      var more := ReachesNpmFromMake(t, p);
      run := [Works(p)] + more;
      assert run[1..] == more && Apply(s, Works(p)) == Some(t);
    case MakeTmp => run := ReachesNpmFromMake(s, p);
    case StartNpm(_) => run := [];
    case NpmRunning(_) =>
      run := [Do(p, false, Missing)];
      assert Exec(InstallStep(s, p, false, Missing).value, []).Some?;
      assert Apply(s, run[0]) == InstallStep(s, p, false, Missing);
  }

  lemma ReachesNpmFromMake(s: State, p: Pid) returns (run: seq<Event>)
    requires PcOf(s, p).MakeTmp?
    ensures Exec(s, run).Some? && PcOf(Exec(s, run).value, p).StartNpm?
  {
    run := [Works(p)];
    var t := InstallStep(s, p, true, Complete).value;
    assert Apply(s, Works(p)) == Some(t) && Exec(t, []) == Some(t);
  }

  /** npm exits with status 0 and the binary whole; everything else succeeds too. */
  function Works(p: Pid): Event {
    Do(p, true, Complete)
  }

  lemma TakesLock(now: int, p: Pid) returns (t: State)
    ensures Exec(Fresh(now), [BeginDownload(p), Works(p), Works(p), Works(p)]) == Some(t)
    ensures t == At(Fresh(now).(lock := Some(now)), p, ClearTmp)
  {
    var s := Fresh(now);
    var a, b := At(s, p, CheckTarget), At(s, p, MakeLock);
    var c := At(s.(lock := Some(now)), p, Recheck);
    t := At(c, p, ClearTmp);
    assert LockStep(a, p, true) == b && LockStep(b, p, true) == c && LockStep(c, p, true) == t;
    assert Exec(c, [Works(p)]) == Some(t);
    assert Exec(b, [Works(p), Works(p)]) == Some(t);
    assert Exec(a, [Works(p), Works(p), Works(p)]) == Some(t);
  }

  lemma PreparesTmp(s: State, p: Pid) returns (t: State)
    requires PcOf(s, p) == ClearTmp && s.root == Absent
    ensures Exec(s, [Works(p), Works(p)]) == Some(t)
    ensures PcOf(t, p) == StartNpm(false) && t.root == Absent && forall q :: q != p ==> PcOf(t, q) == PcOf(s, q)
  {
    var a := At(s.(tmps := s.tmps - {p}), p, MakeTmp);
    t := At(a.(tmps := a.tmps[p := Missing]), p, StartNpm(false));
    assert InstallStep(s, p, true, Complete) == Some(a) && InstallStep(a, p, true, Complete) == Some(t);
    assert Exec(a, [Works(p)]) == Some(t);
  }

  lemma RunsNpm(s: State, p: Pid) returns (t: State)
    requires PcOf(s, p) == StartNpm(false) && s.root == Absent
    ensures Exec(s, [Works(p), Works(p), Works(p)]) == Some(t)
    ensures PcOf(t, p) == Publish && t.root == Absent && p in t.tmps && t.tmps[p] == Complete
    ensures forall q :: q != p ==> PcOf(t, q) == PcOf(s, q)
  {
    var a := At(s.(tmps := s.tmps[p := Partial]), p, NpmRunning(false));
    var b := At(a.(tmps := a.tmps[p := Complete]), p, CheckInstalled);
    t := At(b, p, Publish);
    assert InstallStep(s, p, true, Complete) == Some(a) && InstallStep(a, p, true, Complete) == Some(b);
    assert InstallStep(b, p, true, Complete) == Some(t);
    assert Exec(b, [Works(p)]) == Some(t);
    assert Exec(a, [Works(p), Works(p)]) == Some(t);
  }

  lemma PublishesAndReturns(s: State, p: Pid) returns (t: State)
    requires PcOf(s, p) == Publish && s.root == Absent && p in s.tmps && s.tmps[p] == Complete
    ensures Publishes(s, Works(p)) && Exec(s, [Works(p), Works(p), Works(p)]) == Some(t)
    ensures PcOf(t, p) == Done(True) && Target(t) == Complete && t.lock == None
  {
    var a := At(s.(root := Dir(true, Complete, map[]), tmps := s.tmps - {p}), p, FinalCheck);
    var b := At(a, p, Release(True));
    t := At(b.(lock := None), p, Done(True));
    assert LockStep(a, p, true) == b && LockStep(b, p, true) == t;
    assert Exec(b, [Works(p)]) == Some(t);
    assert Exec(a, [Works(p), Works(p)]) == Some(t);
  }

  /** The protocol can succeed: a launcher on its own publishes the target, releases the lock
      and returns true. */
  lemma AloneItInstalls(now: int, p: Pid) returns (run: seq<Event>, t: State)
    ensures Exec(Fresh(now), run) == Some(t)
    ensures PcOf(t, p) == Done(True) && Target(t) == Complete && t.lock == None
  {
    var s1 := TakesLock(now, p);
    var s2 := PreparesTmp(s1, p);
    var s3 := RunsNpm(s2, p);
    t := PublishesAndReturns(s3, p);
    var lock := [BeginDownload(p), Works(p), Works(p), Works(p)];
    var prepare := [Works(p), Works(p)];
    var three := [Works(p), Works(p), Works(p)];
    run := lock + prepare + three + three;
    ExecConcat(Fresh(now), lock, prepare);
    ExecConcat(Fresh(now), lock + prepare, three);
    ExecConcat(Fresh(now), lock + prepare + three, three);
  }

  /** A launcher that mirrors an installed binary on its own puts it in the cache, whether hard
      links are to be had or it must copy. */
  lemma AloneItMirrors(s: State, p: Pid, links: bool) returns (run: seq<Event>, t: State)
    requires !Present(s) && (PcOf(s, p).Idle? || PcOf(s, p).Done?)
    ensures Exec(s, run) == Some(t) && Target(t) == Complete && PcOf(t, p) == Idle && t.lock == s.lock
  {
    var u := ReachesLink(s, p);
    var reach := [BeginMirror(p), Go(p), Go(p), Go(p), Go(p)];
    var finish: seq<Event>;
    if links {
      t := Links(u, p);
      finish := [Go(p), Go(p)];
    } else {
      t := Copies(u, p);
      finish := [Do(p, false, Missing), Go(p), Go(p), Go(p)];
    }
    run := reach + finish;
    ExecConcat(s, reach, finish);
  }

  lemma ReachesLink(s: State, p: Pid) returns (t: State)
    requires !Present(s) && (PcOf(s, p).Idle? || PcOf(s, p).Done?)
    ensures Exec(s, [BeginMirror(p), Go(p), Go(p), Go(p), Go(p)]) == Some(t)
    ensures PcOf(t, p) == MirrorLink && t.root.Dir? && t.root.occupied && t.lock == s.lock
  {
    var a, b := At(s, p, MirrorCheck), At(s, p, MirrorMakeRoot);
    assert Apply(s, BeginMirror(p)) == Some(a) && a.procs[p := MirrorMakeRoot] == b.procs;
    assert MirrorStep(a, p, true) == b;
    t := MakesDirectories(b, p);
    ExecCons(a, Go(p), b, [Go(p), Go(p), Go(p)]);
    ExecCons(s, BeginMirror(p), a, [Go(p), Go(p), Go(p), Go(p)]);
  }

  lemma MakesDirectories(s: State, p: Pid) returns (t: State)
    requires PcOf(s, p) == MirrorMakeRoot
    ensures Exec(s, [Go(p), Go(p), Go(p)]) == Some(t)
    ensures PcOf(t, p) == MirrorLink && t.root.Dir? && t.root.occupied && t.lock == s.lock
  {
    var a := MirrorStep(s, p, true);
    var b := MirrorStep(a, p, true);
    t := MirrorStep(b, p, true);
    assert PcOf(a, p).MirrorMakeBin? && PcOf(b, p).MirrorClearTmp?;
    assert Exec(t, []) == Some(t);
    ExecCons(b, Go(p), t, []);
    ExecCons(a, Go(p), b, [Go(p)]);
    ExecCons(s, Go(p), a, [Go(p), Go(p)]);
  }

  lemma Links(s: State, p: Pid) returns (t: State)
    requires PcOf(s, p) == MirrorLink && s.root.Dir? && s.root.occupied
    ensures Exec(s, [Go(p), Go(p)]) == Some(t)
    ensures Target(t) == Complete && PcOf(t, p) == Idle && t.lock == s.lock
  {
    var a := At(SetTemp(s, p, Complete), p, MirrorRename);
    t := MirrorStep(a, p, true);
    assert MirrorStep(s, p, true) == a;
    assert Exec(a, [Go(p)]) == Some(t);
  }

  lemma Copies(s: State, p: Pid) returns (t: State)
    requires PcOf(s, p) == MirrorLink && s.root.Dir? && s.root.occupied
    ensures Exec(s, [Do(p, false, Missing), Go(p), Go(p), Go(p)]) == Some(t)
    ensures Target(t) == Complete && PcOf(t, p) == Idle && t.lock == s.lock
  {
    var a := At(s, p, MirrorCopy);
    var b := At(SetTemp(a, p, Partial), p, MirrorCopying);
    assert MirrorStep(s, p, false) == a && MirrorStep(a, p, true) == b;
    t := CopiesThrough(b, p);
    ExecCons(a, Go(p), b, [Go(p), Go(p)]);
    ExecCons(s, Do(p, false, Missing), a, [Go(p), Go(p), Go(p)]);
  }

  lemma CopiesThrough(s: State, p: Pid) returns (t: State)
    requires PcOf(s, p) == MirrorCopying && s.root.Dir? && p in s.root.temps
    ensures Exec(s, [Go(p), Go(p)]) == Some(t)
    ensures Target(t) == Complete && PcOf(t, p) == Idle && t.lock == s.lock
  {
    var a := At(SetTemp(s, p, Complete), p, MirrorRename);
    t := MirrorStep(a, p, true);
    assert MirrorStep(s, p, true) == a && Exec(t, []) == Some(t);
    ExecCons(a, Go(p), t, []);
    ExecCons(s, Go(p), a, [Go(p)]);
  }

  // ---------------------------------------------------------------------------
  // With stealing: exactly which states can lose mutual exclusion

  /** No event of the run moves the clock. */
  predicate Frozen(events: seq<Event>) {
    forall i :: 0 <= i < |events| ==> !events[i].Clock?
  }

  /** Two processes hold the lock. */
  ghost predicate TwoHolders(s: State) {
    exists p, q :: p != q && HoldsLock(PcOf(s, p)) && HoldsLock(PcOf(s, q))
  }

  /** From `s` some run reaches two holders before the clock moves. */
  ghost predicate CanLoseExclusion(s: State) {
    exists run :: Frozen(run) && Exec(s, run).Some? && TwoHolders(Exec(s, run).value)
  }

  /** What a process is to the lock, dead or alive. */
  datatype Role = Out | Maker | Looker | Remover | Remaker | Holder

  function RoleOf(pc: Pc): Role {
    if HoldsLock(pc) then Holder
    else match pc
      case MakeLock => Maker
      case StatLock => Looker
      case StealRemove => Remover
      case StealMake => Remaker
      case _ => Out
  }

  function RoleAt(s: State, p: Pid): Role {
    RoleOf(PcOf(s, p))
  }

  datatype Lock = NoLock | StaleLock | FreshLock

  function LockOf(s: State): Lock {
    if s.lock.None? then NoLock else if Stale(s) then StaleLock else FreshLock
  }

  /** Will steal a stale lock, or is about to. */
  predicate Keen(r: Role) {
    r.Maker? || r.Looker? || r.Remover?
  }

  /** Will get the lock when there is none. */
  predicate Taker(r: Role) {
    r.Maker? || r.Remaker? || r.Remover?
  }

  /** Two processes that can end up holding the lock together. */
  predicate Clash(lock: Lock, a: Role, b: Role) {
    match lock
    case StaleLock => (a.Holder? || Keen(a)) && Keen(b)
    case FreshLock => (a.Holder? || a.Remover?) && b.Remover?
    case NoLock => (a.Holder? && Taker(b)) || (Taker(a) && b.Remover?)
  }

  ghost predicate TwoClash(s: State) {
    exists p, q :: p != q && Clash(LockOf(s), RoleAt(s, p), RoleAt(s, q))
  }

  /** With the target absent any number of launchers may still start. */
  ghost predicate StarterClashes(s: State) {
    !Present(s) &&
      (LockOf(s).StaleLock? || (LockOf(s).NoLock? && exists p :: RoleAt(s, p).Holder? || RoleAt(s, p).Remover?))
  }

  ghost predicate Danger(s: State) {
    TwoHolders(s) || TwoClash(s) || StarterClashes(s)
  }

  /** A launcher that can bring itself to steal, one that starts now included. */
  predicate MaySteal(s: State, p: Pid) {
    Keen(RoleAt(s, p)) || (!Present(s) && (PcOf(s, p).Idle? || PcOf(s, p).Done?))
  }

  predicate MayTake(s: State, p: Pid) {
    Taker(RoleAt(s, p)) || (!Present(s) && (PcOf(s, p).Idle? || PcOf(s, p).Done?))
  }

  /** It gets there when the lock is stale, and nothing else has changed by then. */
  lemma DecidesToSteal(s: State, p: Pid) returns (run: seq<Event>)
    requires Stale(s) && MaySteal(s, p)
    ensures Frozen(run) && Exec(s, run) == Some(At(s, p, StealRemove))
  {
    var b, c, t := At(s, p, MakeLock), At(s, p, StatLock), At(s, p, StealRemove);
    assert b.procs[p := StatLock] == c.procs && c.procs[p := StealRemove] == t.procs;
    assert LockStep(b, p, true) == c && LockStep(c, p, true) == t;
    assert Exec(c, [Go(p)]) == Some(t);
    assert Exec(b, [Go(p), Go(p)]) == Some(t);
    if PcOf(s, p).StealRemove? {
      assert s.procs == s.procs[p := StealRemove];
      run := [];
    } else if PcOf(s, p).StatLock? {
      assert s.procs == s.procs[p := StatLock];
      run := [Go(p)];
    } else if PcOf(s, p).MakeLock? {
      assert s.procs == s.procs[p := MakeLock];
      run := [Go(p), Go(p)];
    } else {
      var a := At(s, p, CheckTarget);
      assert a.procs[p := MakeLock] == b.procs;
      assert Apply(s, BeginDownload(p)) == Some(a) && LockStep(a, p, true) == b;
      assert Exec(a, [Go(p), Go(p), Go(p)]) == Some(t);
      run := [BeginDownload(p), Go(p), Go(p), Go(p)];
    }
  }

  /** Removing and re-making the lock succeeds even when the lock is by now someone else's. */
  lemma Steals(s: State, p: Pid) returns (t: State)
    requires PcOf(s, p) == StealRemove
    ensures Exec(s, [Go(p), Go(p)]) == Some(t)
    ensures t.lock.Some? && t.root == s.root
    ensures PcOf(t, p) == Recheck && forall q :: q != p ==> PcOf(t, q) == PcOf(s, q)
  {
    var a := At(s.(lock := None), p, StealMake);
    t := At(a.(lock := Some(s.now)), p, Recheck);
    assert LockStep(s, p, true) == a && LockStep(a, p, true) == t;
    assert Exec(a, [Go(p)]) == Some(t);
  }

  /** Any two launchers that find the lock stale before either steals it: the second removes the
      first's fresh lock, and both go on to re-check the target as its holder. */
  lemma StealingBreaksMutualExclusion(s: State, p: Pid, q: Pid) returns (run: seq<Event>)
    requires Stale(s) && MaySteal(s, p) && MaySteal(s, q) && p != q
    ensures Frozen(run) && Exec(s, run).Some?
    ensures var t := Exec(s, run).value;
      PcOf(t, p) == Recheck && PcOf(t, q) == Recheck && t.root == s.root
  {
    var one := DecidesToSteal(s, p);
    var s1 := At(s, p, StealRemove);
    var two := DecidesToSteal(s1, q);
    var s2 := At(s1, q, StealRemove);
    var s3 := Steals(s2, p);
    var s4 := Steals(s3, q);
    ExecConcat(s, one, two);
    ExecConcat(s, one + two, [Go(p), Go(p)]);
    ExecConcat(s, one + two + [Go(p), Go(p)], [Go(q), Go(q)]);
    run := one + two + [Go(p), Go(p)] + [Go(q), Go(q)];
  }

  /** Two launchers that have not started yet. */
  lemma TwoIdle(s: State) returns (p: Pid, q: Pid)
    ensures p != q && PcOf(s, p) == Idle && PcOf(s, q) == Idle
  {
    p := Unused(s.procs.Keys);
    q := Unused(s.procs.Keys + {p});
  }

  lemma {:induction false} Unused(pids: set<Pid>) returns (n: Pid)
    ensures n !in pids && forall p :: p in pids ==> p < n
    decreases pids
  {
    n := 0;
    if pids != {} {
      var p :| p in pids;
      var m := Unused(pids - {p});
      n := if m <= p then p + 1 else m;
      forall k | k in pids ensures k < n {
        assert k == p || k in pids - {p};
      }
    }
  }

  // ---------------------------------------------------------------------------
  // Every danger is real

  /** What a run can lose later, it can lose. */
  lemma LosesLater(s: State, run: seq<Event>, t: State)
    requires Frozen(run) && Exec(s, run) == Some(t) && CanLoseExclusion(t)
    ensures CanLoseExclusion(s)
  {
    var more :| Frozen(more) && Exec(t, more).Some? && TwoHolders(Exec(t, more).value);
    ExecConcat(s, run, more);
    assert Frozen(run + more);
  }

  lemma LosesNow(s: State)
    requires TwoHolders(s)
    ensures CanLoseExclusion(s)
  {
    assert Frozen([]) && Exec(s, []) == Some(s);
  }

  lemma StealsNextToHolder(s: State, p: Pid, q: Pid)
    requires p != q && RoleAt(s, p).Remover? && RoleAt(s, q).Holder?
    ensures CanLoseExclusion(s)
  {
    var t := Steals(s, p);
    assert HoldsLock(PcOf(t, p)) && HoldsLock(PcOf(t, q));
    LosesNow(t);
    LosesLater(s, [Go(p), Go(p)], t);
  }

  /** When there is no lock, one who wants it gets it. */
  lemma Takes(s: State, p: Pid) returns (run: seq<Event>, t: State)
    requires LockOf(s).NoLock? && MayTake(s, p)
    ensures Frozen(run) && Exec(s, run) == Some(t)
    ensures t.lock.Some? && t.root == s.root
    ensures PcOf(t, p) == Recheck && forall q :: q != p ==> PcOf(t, q) == PcOf(s, q)
  {
    t := At(s.(lock := Some(s.now)), p, Recheck);
    if PcOf(s, p).StealRemove? {
      t := Steals(s, p);
      run := [Go(p), Go(p)];
    } else if PcOf(s, p).MakeLock? || PcOf(s, p).StealMake? {
      assert LockStep(s, p, true) == t;
      run := [Go(p)];
    } else {
      var a, b := At(s, p, CheckTarget), At(s, p, MakeLock);
      assert a.procs[p := MakeLock] == b.procs && b.procs[p := Recheck] == t.procs;
      assert Apply(s, BeginDownload(p)) == Some(a) && LockStep(a, p, true) == b && LockStep(b, p, true) == t;
      assert Exec(b, [Go(p)]) == Some(t);
      assert Exec(a, [Go(p), Go(p)]) == Some(t);
      run := [BeginDownload(p), Go(p), Go(p)];
    }
  }

  lemma TakesNextToHolder(s: State, p: Pid, q: Pid)
    requires p != q && LockOf(s).NoLock? && MayTake(s, p) && RoleAt(s, q).Holder?
    ensures CanLoseExclusion(s)
  {
    var run, t := Takes(s, p);
    assert HoldsLock(PcOf(t, p)) && HoldsLock(PcOf(t, q));
    LosesNow(t);
    LosesLater(s, run, t);
  }

  lemma TakenThenStolen(s: State, p: Pid, q: Pid)
    requires p != q && LockOf(s).NoLock? && MayTake(s, p) && RoleAt(s, q).Remover?
    ensures CanLoseExclusion(s)
  {
    var run, t := Takes(s, p);
    StealsNextToHolder(t, q, p);
    LosesLater(s, run, t);
  }

  lemma DecidesNextToHolder(s: State, p: Pid, q: Pid)
    requires p != q && Stale(s) && MaySteal(s, p) && RoleAt(s, q).Holder?
    ensures CanLoseExclusion(s)
  {
    var run := DecidesToSteal(s, p);
    StealsNextToHolder(At(s, p, StealRemove), p, q);
    LosesLater(s, run, At(s, p, StealRemove));
  }

  lemma BothSteal(s: State, p: Pid, q: Pid)
    requires p != q && RoleAt(s, p).Remover? && RoleAt(s, q).Remover?
    ensures CanLoseExclusion(s)
  {
    var t := Steals(s, p);
    StealsNextToHolder(t, q, p);
    LosesLater(s, [Go(p), Go(p)], t);
  }

  lemma BothDecide(s: State, p: Pid, q: Pid)
    requires p != q && Stale(s) && MaySteal(s, p) && MaySteal(s, q)
    ensures CanLoseExclusion(s)
  {
    var run := StealingBreaksMutualExclusion(s, p, q);
    assert TwoHolders(Exec(s, run).value);
  }

  lemma ClashIsReal(s: State, p: Pid, q: Pid)
    requires p != q && Clash(LockOf(s), RoleAt(s, p), RoleAt(s, q))
    ensures CanLoseExclusion(s)
  {
    match LockOf(s)
    case StaleLock => if RoleAt(s, p).Holder? { DecidesNextToHolder(s, q, p); } else { BothDecide(s, p, q); }
    case FreshLock => if RoleAt(s, p).Holder? { StealsNextToHolder(s, q, p); } else { BothSteal(s, p, q); }
    case NoLock => if RoleAt(s, p).Holder? { TakesNextToHolder(s, q, p); } else { TakenThenStolen(s, p, q); }
  }

  lemma DangerIsReal(s: State)
    requires Danger(s)
    ensures CanLoseExclusion(s)
  {
    if TwoHolders(s) {
      LosesNow(s);
    } else if TwoClash(s) {
      var p, q :| p != q && Clash(LockOf(s), RoleAt(s, p), RoleAt(s, q));
      ClashIsReal(s, p, q);
    } else {
      var p, q := TwoIdle(s);
      if Stale(s) {
        BothDecide(s, p, q);
      } else {
        var r :| RoleAt(s, r).Holder? || RoleAt(s, r).Remover?;
        if RoleAt(s, r).Holder? { TakesNextToHolder(s, p, r); } else { TakenThenStolen(s, p, r); }
      }
    }
  }

  // ---------------------------------------------------------------------------
  // Without danger, none arises before the clock moves

  /** How a step of a process in a role moves the lock and its role. */
  predicate RoleStep(present: bool, lock: Lock, before: Role, lock': Lock, after: Role) {
    || (after.Out? && lock' == lock)
    || match before
       case Out => after.Maker? && lock' == lock && !present
       case Maker => if lock.NoLock? then after.Holder? && lock'.FreshLock? else after.Looker? && lock' == lock
       case Looker => after.Remover? && lock' == lock && lock.StaleLock?
       case Remover => after.Remaker? && lock'.NoLock?
       case Remaker => after.Holder? && lock'.FreshLock? && lock.NoLock?
       case Holder => (after.Holder? && lock' == lock) || (after.Out? && lock'.NoLock?)
  }

  predicate TakesRoleStep(s: State, t: State, p: Pid) {
    RoleStep(Present(s), LockOf(s), RoleAt(s, p), LockOf(t), RoleAt(t, p))
  }

  lemma LockStepTakesRoleStep(s: State, p: Pid, ok: bool)
    requires LockPc(PcOf(s, p))
    ensures TakesRoleStep(s, LockStep(s, p, ok), p)
  {
  }

  lemma InstallStepTakesRoleStep(s: State, p: Pid, ok: bool, left: Binary)
    requires InstallStep(s, p, ok, left).Some?
    ensures TakesRoleStep(s, InstallStep(s, p, ok, left).value, p)
  {
    var t := InstallStep(s, p, ok, left).value;
    assert t.lock == s.lock && t.now == s.now;
    assert RoleAt(s, p).Holder? && RoleAt(t, p).Holder?;
  }

  lemma MirrorStepTakesRoleStep(s: State, p: Pid, ok: bool)
    requires MirrorPc(PcOf(s, p))
    ensures TakesRoleStep(s, MirrorStep(s, p, ok), p)
  {
    MirrorKeepsLock(s, p, ok);
  }

  lemma MirrorKeepsLock(s: State, p: Pid, ok: bool)
    requires MirrorPc(PcOf(s, p))
    ensures var t := MirrorStep(s, p, ok);
      t.lock == s.lock && t.now == s.now && RoleAt(t, p).Out?
  {
  }

  lemma EventTakesRoleStep(s: State, e: Event)
    requires Apply(s, e).Some? && !e.Clock?
    ensures TakesRoleStep(s, Apply(s, e).value, e.p)
  {
    if e.Do? {
      if LockPc(PcOf(s, e.p)) { LockStepTakesRoleStep(s, e.p, e.ok); }
      else if MirrorPc(PcOf(s, e.p)) { MirrorStepTakesRoleStep(s, e.p, e.ok); }
      else { InstallStepTakesRoleStep(s, e.p, e.ok, e.left); }
    }
  }

  /** The acting process and one or two others, by their roles before and after. */
  lemma NoNewClash(s: State, t: State, p: Pid, q: Pid, r: Pid)
    requires !Danger(s) && TakesRoleStep(s, t, p) && q != r
    requires forall o :: o != p ==> RoleAt(t, o) == RoleAt(s, o)
    ensures !(RoleAt(t, q).Holder? && RoleAt(t, r).Holder?)
    ensures !Clash(LockOf(t), RoleAt(t, q), RoleAt(t, r))
  {
    NoPair(s, q, r);
    if p != q { NoPair(s, p, q); }
    if p != r { NoPair(s, p, r); }
  }

  lemma NoPair(s: State, p: Pid, q: Pid)
    requires !Danger(s) && p != q
    ensures !(RoleAt(s, p).Holder? && RoleAt(s, q).Holder?)
    ensures !Clash(LockOf(s), RoleAt(s, p), RoleAt(s, q)) && !Clash(LockOf(s), RoleAt(s, q), RoleAt(s, p))
    ensures StarterRole(s, RoleAt(s, p)) && StarterRole(s, RoleAt(s, q))
  {
  }

  predicate StarterRole(s: State, r: Role) {
    Present(s) || (!LockOf(s).StaleLock? && (LockOf(s).NoLock? ==> !r.Holder? && !r.Remover?))
  }

  lemma NoNewStarterClash(s: State, t: State, p: Pid, q: Pid)
    requires !Danger(s) && TakesRoleStep(s, t, p) && (Present(s) ==> Present(t))
    requires forall o :: o != p ==> RoleAt(t, o) == RoleAt(s, o)
    ensures StarterRole(t, RoleAt(t, q))
  {
    if p != q { NoPair(s, p, q); } else { assert StarterRole(s, RoleAt(s, p)); }
  }

  lemma RoleStepStaysOutOfDanger(s: State, t: State, p: Pid)
    requires !Danger(s) && TakesRoleStep(s, t, p) && (Present(s) ==> Present(t))
    requires forall o :: o != p ==> RoleAt(t, o) == RoleAt(s, o)
    ensures !Danger(t)
  {
    if TwoHolders(t) {
      var q, r :| q != r && HoldsLock(PcOf(t, q)) && HoldsLock(PcOf(t, r));
      NoNewClash(s, t, p, q, r);
    } else if TwoClash(t) {
      var q, r :| q != r && Clash(LockOf(t), RoleAt(t, q), RoleAt(t, r));
      NoNewClash(s, t, p, q, r);
    } else if StarterClashes(t) {
      NoNewStarterClash(s, t, p, p);
      var q :| RoleAt(t, q).Holder? || RoleAt(t, q).Remover?;
      NoNewStarterClash(s, t, p, q);
    }
  }

  lemma {:induction false} StaysOutOfDanger(s: State, events: seq<Event>)
    requires Safe(s) && !Danger(s) && Frozen(events) && Exec(s, events).Some?
    ensures !Danger(Exec(s, events).value)
    decreases events
  {
    if events != [] {
      var e, t := events[0], Apply(s, events[0]).value;
      ApplySafe(s, e);
      EventTakesRoleStep(s, e);
      OthersKeepTheirPlace(s, e);
      RoleStepStaysOutOfDanger(s, t, e.p);
      StaysOutOfDanger(t, events[1..]);
    }
  }

  /** Exactly from which states, whoever is in the middle of a steal, two holders can come about
      before the clock moves: two hold the lock already; two processes clash; or the target is
      absent and a launcher that starts now clashes with a stale lock, or with a holder or stealer
      that has no lock. */
  lemma LosesExclusionExactly(s: State)
    requires Safe(s)
    ensures CanLoseExclusion(s) <==> TwoHolders(s) || TwoClash(s) || StarterClashes(s)
  {
    if Danger(s) {
      DangerIsReal(s);
    } else if CanLoseExclusion(s) {
      var run :| Frozen(run) && Exec(s, run).Some? && TwoHolders(Exec(s, run).value);
      StaysOutOfDanger(s, run);
    }
  }

  // ---------------------------------------------------------------------------
  // When the clock may move as well

  ghost predicate CanEverLoseExclusion(s: State) {
    exists run :: Exec(s, run).Some? && TwoHolders(Exec(s, run).value)
  }

  /** Two processes that can end up holding the lock together, given time. */
  predicate EverClash(locked: bool, a: Role, b: Role) {
    if locked then (a.Holder? || Keen(a)) && Keen(b)
    else (a.Holder? && Taker(b)) || (Taker(a) && Keen(b))
  }

  ghost predicate TwoEverClash(s: State) {
    exists p, q :: p != q && EverClash(s.lock.Some?, RoleAt(s, p), RoleAt(s, q))
  }

  /** What can be lost after more events can be lost. */
  lemma LosesEver(s: State, run: seq<Event>, t: State)
    requires Exec(s, run) == Some(t) && CanLoseExclusion(t)
    ensures CanEverLoseExclusion(s)
  {
    var more :| Frozen(more) && Exec(t, more).Some? && TwoHolders(Exec(t, more).value);
    ExecConcat(s, run, more);
    assert TwoHolders(Exec(s, run + more).value);
  }

  /** Let a lock that is there grow stale. */
  lemma GrowsStale(s: State) returns (run: seq<Event>, t: State)
    requires s.lock.Some?
    ensures Exec(s, run) == Some(t) && LockOf(t).StaleLock? && t.root == s.root && t.procs == s.procs
  {
    var time := s.lock.value + STALE_AFTER + 1;
    t := s.(now := time);
    run := [Clock(time)];
    assert Apply(s, Clock(time)) == Some(t) && Exec(t, []) == Some(t);
  }

  lemma GrownStaleIsReal(s: State)
    requires s.lock.Some? && (!Present(s) || TwoEverClash(s))
    ensures CanEverLoseExclusion(s)
  {
    var run, t := GrowsStale(s);
    if Present(s) {
      var p, q :| p != q && EverClash(true, RoleAt(s, p), RoleAt(s, q));
      ClashIsReal(t, p, q);
    } else {
      DangerIsReal(t);
    }
    LosesEver(s, run, t);
  }

  lemma TakenThenStale(s: State, p: Pid)
    requires s.lock.None? && MayTake(s, p)
    requires !Present(s) || exists q :: q != p && Keen(RoleAt(s, q))
    ensures CanEverLoseExclusion(s)
  {
    var run, t := Takes(s, p);
    if q :| q != p && Keen(RoleAt(s, q)) {
      assert EverClash(true, RoleAt(t, p), RoleAt(t, q));
    }
    GrownStaleIsReal(t);
    var more :| Exec(t, more).Some? && TwoHolders(Exec(t, more).value);
    ExecConcat(s, run, more);
    assert TwoHolders(Exec(s, run + more).value);
  }

  lemma EverDangerIsReal(s: State)
    requires TwoHolders(s) || !Present(s) || TwoEverClash(s)
    ensures CanEverLoseExclusion(s)
  {
    if TwoHolders(s) {
      LosesNow(s);
      LosesEver(s, [], s);
    } else if s.lock.Some? {
      GrownStaleIsReal(s);
    } else if !Present(s) {
      var p, q := TwoIdle(s);
      TakenThenStale(s, p);
    } else {
      var p, q :| p != q && EverClash(false, RoleAt(s, p), RoleAt(s, q));
      if RoleAt(s, p).Holder? {
        ClashIsReal(s, p, q);
        LosesEver(s, [], s);
      } else {
        TakenThenStale(s, p);
      }
    }
  }

  lemma NoNewEverClash(s: State, t: State, p: Pid, q: Pid, r: Pid)
    requires !TwoHolders(s) && !TwoEverClash(s) && Present(s) && TakesRoleStep(s, t, p) && q != r
    requires forall o :: o != p ==> RoleAt(t, o) == RoleAt(s, o)
    ensures !(RoleAt(t, q).Holder? && RoleAt(t, r).Holder?)
    ensures !EverClash(t.lock.Some?, RoleAt(t, q), RoleAt(t, r))
  {
    NoEverPair(s, q, r);
    if p != q { NoEverPair(s, p, q); }
    if p != r { NoEverPair(s, p, r); }
  }

  lemma NoEverPair(s: State, p: Pid, q: Pid)
    requires !TwoHolders(s) && !TwoEverClash(s) && p != q
    ensures !(RoleAt(s, p).Holder? && RoleAt(s, q).Holder?)
    ensures !EverClash(s.lock.Some?, RoleAt(s, p), RoleAt(s, q))
    ensures !EverClash(s.lock.Some?, RoleAt(s, q), RoleAt(s, p))
  {
  }

  lemma EventKeepsEver(s: State, e: Event)
    requires Safe(s) && Apply(s, e).Some? && !TwoHolders(s) && !TwoEverClash(s) && Present(s)
    ensures var t := Apply(s, e).value;
      Safe(t) && !TwoHolders(t) && !TwoEverClash(t) && Present(t)
  {
    var t := Apply(s, e).value;
    ApplySafe(s, e);
    if e.Clock? {
      assert forall p :: PcOf(t, p) == PcOf(s, p);
      assert forall p :: RoleAt(t, p) == RoleAt(s, p);
    } else {
      EventTakesRoleStep(s, e);
      OthersKeepTheirPlace(s, e);
      if TwoHolders(t) {
        var q, r :| q != r && HoldsLock(PcOf(t, q)) && HoldsLock(PcOf(t, r));
        NoNewEverClash(s, t, e.p, q, r);
      } else if TwoEverClash(t) {
        var q, r :| q != r && EverClash(t.lock.Some?, RoleAt(t, q), RoleAt(t, r));
        NoNewEverClash(s, t, e.p, q, r);
      }
    }
  }

  lemma {:induction false} ExecKeepsEver(s: State, events: seq<Event>)
    requires Safe(s) && !TwoHolders(s) && !TwoEverClash(s) && Present(s) && Exec(s, events).Some?
    ensures !TwoHolders(Exec(s, events).value)
    decreases events
  {
    if events != [] {
      EventKeepsEver(s, events[0]);
      ExecKeepsEver(Apply(s, events[0]).value, events[1..]);
    }
  }

  /** Exactly from which states two holders can come about at all, time passing or not: always as
      long as the target is absent; once it is there, only from two processes that clash. */
  lemma EverLosesExclusionExactly(s: State)
    requires Safe(s)
    ensures CanEverLoseExclusion(s) <==> TwoHolders(s) || !Present(s) || TwoEverClash(s)
  {
    if TwoHolders(s) || !Present(s) || TwoEverClash(s) {
      EverDangerIsReal(s);
    } else if CanEverLoseExclusion(s) {
      var run :| Exec(s, run).Some? && TwoHolders(Exec(s, run).value);
      ExecKeepsEver(s, run);
    }
  }

  lemma TakesFreshLock(p: Pid) returns (t: State)
    ensures Exec(Fresh(0), [BeginDownload(p), Go(p), Go(p)]) == Some(t)
    ensures t == At(Fresh(0).(lock := Some(0)), p, Recheck)
  {
    var s := Fresh(0);
    var a, b := At(s, p, CheckTarget), At(s, p, MakeLock);
    t := At(s.(lock := Some(0)), p, Recheck);
    assert LockStep(a, p, true) == b && LockStep(b, p, true) == t;
    assert Exec(b, [Go(p)]) == Some(t);
    assert Exec(a, [Go(p), Go(p)]) == Some(t);
  }

  /** Such states occur. */
  lemma ExclusionCanBeLost(p: Pid) returns (run: seq<Event>, t: State)
    ensures Exec(Fresh(0), run) == Some(t) && Safe(t) && OneHolder(t) && CanLoseExclusion(t)
  {
    run, t := DiesHoldingTheLock(p);
    ExecSafe(Fresh(0), run);
    LosesExclusionExactly(t);
  }

  /** A launcher takes the lock, dies, and more than fifteen minutes pass. */
  lemma DiesHoldingTheLock(p: Pid) returns (run: seq<Event>, t: State)
    ensures Exec(Fresh(0), run) == Some(t)
    ensures OneHolder(t) && Stale(t) && t.now == 900_001 && t.root == Absent
    ensures forall q :: q != p ==> PcOf(t, q) == Idle
  {
    var take, die := [BeginDownload(p), Go(p), Go(p)], [Crash(p), Clock(STALE_AFTER + 1)];
    var s := TakesFreshLock(p);
    t := DiesAndTimePasses(s, p, STALE_AFTER + 1);
    run := take + die;
    ExecConcat(Fresh(0), take, die);
    assert t.procs == map[p := Crashed(Recheck)];
  }

  // ---------------------------------------------------------------------------
  // With stealing, an install can follow a publication

  /** From any state with a stale lock and no cache: two launchers steal, the one installs and
      publishes, and the other, past its re-check, can still start npm. */
  lemma StealersInstallTwice(s: State, p: Pid, q: Pid) returns (run: seq<Event>, t: State)
    requires Stale(s) && s.root == Absent && MaySteal(s, p) && MaySteal(s, q) && p != q
    ensures Exec(s, run) == Some(t) && Publishes(t, Works(p))
    ensures Present(Apply(t, Works(p)).value) && CanStartNpm(Apply(t, Works(p)).value)
  {
    var steal := StealingBreaksMutualExclusion(s, p, q);
    var s1 := Exec(s, steal).value;
    var s2 := PassesRecheck(s1, q);
    var s3 := PassesRecheck(s2, p);
    var s4 := PreparesTmp(s3, p);
    t := RunsNpm(s4, p);
    var install := [Works(q)] + [Works(p)] + [Works(p), Works(p)] + [Works(p), Works(p), Works(p)];
    ExecConcat(s1, [Works(q)], [Works(p)]);
    ExecConcat(s1, [Works(q)] + [Works(p)], [Works(p), Works(p)]);
    ExecConcat(s1, [Works(q)] + [Works(p)] + [Works(p), Works(p)], [Works(p), Works(p), Works(p)]);
    run := steal + install;
    ExecConcat(s, steal, install);
    PublishLeavesOthers(t, p, q);
  }

  lemma PassesRecheck(s: State, p: Pid) returns (t: State)
    requires PcOf(s, p) == Recheck && s.root == Absent
    ensures Exec(s, [Works(p)]) == Some(t) && t == At(s, p, ClearTmp)
  {
    t := At(s, p, ClearTmp);
    assert LockStep(s, p, true) == t && Exec(t, []) == Some(t);
  }

  lemma PublishLeavesOthers(s: State, p: Pid, q: Pid)
    requires p != q && PcOf(s, p) == Publish && s.root == Absent && p in s.tmps && s.tmps[p] == Complete
    requires MayInstall(PcOf(s, q))
    ensures Publishes(s, Works(p))
    ensures Present(Apply(s, Works(p)).value) && CanStartNpm(Apply(s, Works(p)).value)
  {
    var t := At(s.(root := Dir(true, Complete, map[]), tmps := s.tmps - {p}), p, FinalCheck);
    assert Apply(s, Works(p)) == Some(t) && PcOf(t, q) == PcOf(s, q);
    var run := ReachesNpm(t, q);
    assert StartsNpm(Exec(t, run).value, Works(q));
  }

  /** It happens from an empty cache on: without the proviso of `NoInstallAfterPublication` its
      conclusion fails. */
  lemma InstallCanFollowPublication(p: Pid) returns (run: seq<Event>, t: State)
    ensures Exec(Fresh(0), run) == Some(t) && Publishes(t, Works(p + 1))
    ensures Present(Apply(t, Works(p + 1)).value) && CanStartNpm(Apply(t, Works(p + 1)).value)
  {
    var die, s := DiesHoldingTheLock(p);
    var more, u := StealersInstallTwice(s, p + 1, p + 2);
    ExecConcat(Fresh(0), die, more);
    run, t := die + more, u;
  }

  lemma DiesAndTimePasses(s: State, p: Pid, time: int) returns (t: State)
    requires !PcOf(s, p).Crashed?
    ensures Exec(s, [Crash(p), Clock(time)]) == Some(t)
    ensures t == At(s, p, Crashed(PcOf(s, p))).(now := time)
  {
    var dead := At(s, p, Crashed(PcOf(s, p)));
    t := dead.(now := time);
    assert Apply(s, Crash(p)) == Some(dead) && Apply(dead, Clock(time)) == Some(t);
    assert Exec(dead, [Clock(time)]) == Some(t);
  }
}
