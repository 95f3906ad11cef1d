/** The fast-create pipeline: remote effects in a fixed order, two polling waits, any step may
    fail. Source: internal/pages/pages.go. */
module FastCreate {
  import opened Wrappers
  import opened Text
  import opened StringOrder

  // ---------------------------------------------------------------------------
  // Inputs, replies and the trace

  /** A directory entry; `content` is None when the file cannot be read. */
  datatype DirEntry = DirEntry(name: string, isDir: bool, content: Option<string>)

  /** A function directory; `usable` when its slug is valid and its files could be collected. */
  datatype FunctionDir = FunctionDir(slug: string, isDir: bool, usable: bool)

  /** `resource` is None when the frontend could not be prepared, the two directories None when
      the option is blank; `dirsValid` when the given ones are directories. */
  datatype Params = Params(projectName: string, resource: Option<string>, dirsValid: bool,
                           migrations: Option<seq<DirEntry>>, functions: Option<seq<FunctionDir>>)

  datatype BranchReply = BranchReply(id: string, status: string)

  /** One turn of the workspace wait; None is a call that failed. */
  datatype WorkspacePoll = WorkspacePoll(status: string, branch: Option<BranchReply>)

  datatype Deployment = Deployment(id: string, deployId: string, status: string)

  /** What the remote side answers; a wait that runs out of polls has timed out. `failingFiles`
      holds the positions, among the sorted migration files, whose execution fails. */
  datatype Replies = Replies(
    rolesGranted: bool, upload: Option<string>, pages: Option<string>, workspace: Option<(string, string)>,
    workspacePolls: seq<Option<WorkspacePoll>>, failingFiles: set<nat>,
    functionAccess: bool, failingSlugs: set<string>, bind: bool, deploy: Option<string>,
    deployPolls: seq<Option<seq<Deployment>>>, previewDomain: Option<string>)

  datatype Effect =
    | Upload(file: string)
    | CreatePages(name: string, resource: string)
    | CreateWorkspace(name: string)
    | Migrate(workspace: string, branch: string, sql: string)
    | DeployFunction(workspace: string, branch: string, slug: string)
    | Bind(workspace: string, branch: string, pages: string)
    | Deploy(pages: string, resource: string)

  /** Effects are logged when they are attempted, observations when they are made. */
  datatype Entry =
    | Did(effect: Effect)
    | SawReady(workspace: string, branch: string)
    | SawDeployed(deployId: string)

  datatype Created = Created(pages: string, name: string, workspace: string, branch: string, resource: string,
                             deployId: string, previewDomain: string)

  function Effects(trace: seq<Entry>): seq<Effect> {
    if trace == [] then []
    else if trace[|trace| - 1].Did? then Effects(trace[..|trace| - 1]) + [trace[|trace| - 1].effect]
    else Effects(trace[..|trace| - 1])
  }

  // ---------------------------------------------------------------------------
  // The plan

  function ToLower(s: string): (r: string)
    ensures |r| == |s|
  {
    seq(|s|, i requires 0 <= i < |s| => if 'A' <= s[i] <= 'Z' then s[i] - 'A' + 'a' else s[i])
  }

  /** `shouldSkipFastCreateMigrationFile`. */
  predicate SkipMigration(name: string) {
    "." <= name || |name| < 4 || ToLower(name)[|name| - 4..] != ".sql"
  }

  function MigrationNames(entries: seq<DirEntry>): seq<string> {
    if entries == [] then []
    else
      var before, last := MigrationNames(entries[..|entries| - 1]), entries[|entries| - 1];
      if last.isDir || SkipMigration(last.name) then before else before + [last.name]
  }

  function ContentOf(entries: seq<DirEntry>, name: string): Option<string> {
    if entries == [] then None
    else if entries[0].name == name then entries[0].content
    else ContentOf(entries[1..], name)
  }

  predicate Blank(sql: string) {
    TrimSpace(sql) == []
  }

  /** The migrations to run, in the order of the names. */
  function SqlPlan(entries: seq<DirEntry>, names: seq<string>): seq<string> {
    if names == [] then []
    else
      var before, content := SqlPlan(entries, names[..|names| - 1]), ContentOf(entries, names[|names| - 1]);
      if content.Some? && !Blank(content.value) then before + [content.value] else before
  }

  predicate VisibleFunction(f: FunctionDir) {
    f.isDir && !("." <= f.slug)
  }

  function Slugs(functions: seq<FunctionDir>): seq<string> {
    if functions == [] then []
    else
      var before, last := Slugs(functions[..|functions| - 1]), functions[|functions| - 1];
      if VisibleFunction(last) then before + [last.slug] else before
  }

  function Migrates(workspace: string, branch: string, sql: seq<string>): seq<Effect> {
    seq(|sql|, i requires 0 <= i < |sql| => Migrate(workspace, branch, sql[i]))
  }

  function Deploys(workspace: string, branch: string, slugs: seq<string>): seq<Effect> {
    seq(|slugs|, i requires 0 <= i < |slugs| => DeployFunction(workspace, branch, slugs[i]))
  }

  function ProjectName(p: Params): string {
    TrimSpace(p.projectName)
  }

  function Or<T>(o: Option<T>, otherwise: T): T {
    if o.Some? then o.value else otherwise
  }

  function WorkspaceId(r: Replies): string {
    if r.workspace.None? then []
    else if TrimSpace(r.workspace.value.0) != [] then TrimSpace(r.workspace.value.0)
    else TrimSpace(r.workspace.value.1)
  }

  /** The branch of the first poll that finds the workspace Running and its branch Ready; None
      when a call fails before that or the wait runs out. */
  function ReadyBranch(polls: seq<Option<WorkspacePoll>>): Option<string> {
    if polls == [] || polls[0].None? then None
    else if polls[0].value.status != "Running" then ReadyBranch(polls[1..])
    else match polls[0].value.branch
      case None => None
      case Some(b) => if b.id != [] && b.status == "Ready" then Some(b.id) else ReadyBranch(polls[1..])
  }

  function BranchId(r: Replies): string {
    TrimSpace(Or(ReadyBranch(r.workspacePolls), []))
  }

  function MigrationPlan(p: Params, r: Replies): seq<Effect> {
    if p.migrations.None? then [] else SqlEffects(p.migrations.value, WorkspaceId(r), BranchId(r))
  }

  function FunctionPlan(p: Params, r: Replies): seq<Effect> {
    if p.functions.None? then [] else Deploys(WorkspaceId(r), BranchId(r), Slugs(p.functions.value))
  }

  function Opening(p: Params, r: Replies): seq<Effect> {
    [Upload(Or(p.resource, [])), CreatePages(ProjectName(p), Or(r.upload, [])), CreateWorkspace(ProjectName(p))]
  }

  function Closing(r: Replies): seq<Effect> {
    [Bind(WorkspaceId(r), BranchId(r), Or(r.pages, [])), Deploy(Or(r.pages, []), Or(r.upload, []))]
  }

  /** Every remote effect of a run that goes through, in order. */
  function Plan(p: Params, r: Replies): seq<Effect> {
    Opening(p, r) + MigrationPlan(p, r) + FunctionPlan(p, r) + Closing(r)
  }

  // ---------------------------------------------------------------------------
  // When a run goes through

  /** `ValidateProjectName`. */
  predicate ValidName(name: string) {
    && 2 <= |name| <= 63
    && (forall i :: 0 <= i < |name| ==> 'a' <= name[i] <= 'z' || '0' <= name[i] <= '9' || name[i] == '-')
    && name[0] != '-' && name[|name| - 1] != '-'
  }

  predicate MigrationSucceeds(content: Option<string>, fails: bool) {
    content.Some? && (Blank(content.value) || !fails)
  }

  predicate MigrationsSucceed(entries: seq<DirEntry>, names: seq<string>, failing: set<nat>) {
    forall i :: 0 <= i < |names| ==> MigrationSucceeds(ContentOf(entries, names[i]), i in failing)
  }

  predicate FunctionSucceeds(f: FunctionDir, failing: set<string>) {
    !VisibleFunction(f) || (f.usable && f.slug !in failing)
  }

  predicate FunctionsSucceed(functions: seq<FunctionDir>, failing: set<string>) {
    functions == [] ||
      (FunctionsSucceed(functions[..|functions| - 1], failing) && FunctionSucceeds(functions[|functions| - 1], failing))
  }

  /** A listing shows the deployment as successful: the first entry with its id decides. */
  predicate ListsSuccess(deployments: seq<Deployment>, deployId: string) {
    deployments != [] &&
      if DeploymentId(deployments[0]) == deployId then deployments[0].status == "DeploySuccess"
      else ListsSuccess(deployments[1..], deployId)
  }

  function DeploymentId(d: Deployment): string {
    if TrimSpace(d.id) != [] then TrimSpace(d.id) else TrimSpace(d.deployId)
  }

  predicate DeploySucceeds(polls: seq<Option<seq<Deployment>>>, deployId: string) {
    polls != [] && polls[0].Some? &&
      (ListsSuccess(polls[0].value, deployId) || DeploySucceeds(polls[1..], deployId))
  }

  predicate Prepared(p: Params, r: Replies) {
    ValidName(ProjectName(p)) && p.resource.Some? && p.dirsValid && r.rolesGranted
  }

  predicate Provisioned(r: Replies) {
    && r.upload.Some? && r.pages.Some? && r.pages.value != [] && WorkspaceId(r) != []
    && ReadyBranch(r.workspacePolls).Some? && BranchId(r) != []
  }

  predicate Populated(p: Params, r: Replies) {
    && (p.migrations.Some? ==>
         var names := Sort(MigrationNames(p.migrations.value));
         names != [] && MigrationsSucceed(p.migrations.value, names, r.failingFiles))
    && (p.functions.Some? ==>
         r.functionAccess && Slugs(p.functions.value) != [] && FunctionsSucceed(p.functions.value, r.failingSlugs))
  }

  predicate Published(r: Replies) {
    && r.bind && r.deploy.Some? && DeploySucceeds(r.deployPolls, r.deploy.value)
    && r.previewDomain.Some? && TrimSpace(r.previewDomain.value) != []
  }

  predicate GoesThrough(p: Params, r: Replies) {
    Prepared(p, r) && Provisioned(r) && Populated(p, r) && Published(r)
  }

  // ---------------------------------------------------------------------------
  // The run

  predicate NeedsReady(e: Effect) {
    e.Migrate? || e.DeployFunction? || e.Bind? || e.Deploy?
  }

  /** Every effect on the workspace comes after the observation `ready`. */
  predicate ReadyFirst(trace: seq<Entry>, ready: Entry) {
    trace == [] ||
      var before, last := trace[..|trace| - 1], trace[|trace| - 1];
      ReadyFirst(before, ready) && (last.Did? && NeedsReady(last.effect) ==> ready in before)
  }

  lemma LogStep(trace: seq<Entry>, e: Entry, ready: Entry)
    ensures ReadyFirst(trace + [e], ready) <==>
      ReadyFirst(trace, ready) && (e.Did? && NeedsReady(e.effect) ==> ready in trace)
    ensures Effects(trace + [e]) == Effects(trace) + if e.Did? then [e.effect] else []
  {
    assert (trace + [e])[..|trace|] == trace;
  }

  function ReadyEntry(r: Replies): Entry {
    SawReady(WorkspaceId(r), BranchId(r))
  }

  // ---------------------------------------------------------------------------
  // What must have gone before

  /** The place of an effect in the order of the pipeline. */
  function Rank(e: Effect): nat {
    match e
    case Upload(_) => 0
    case CreatePages(_, _) => 1
    case CreateWorkspace(_) => 2
    case Migrate(_, _, _) => 3
    case DeployFunction(_, _, _) => 4
    case Bind(_, _, _) => 5
    case Deploy(_, _) => 6
  }

  /** Its call was refused, or answered without the id that the next steps need. */
  predicate Failed(e: Effect, r: Replies) {
    match e
    case Upload(_) => r.upload.None?
    case CreatePages(_, _) => r.pages.None? || r.pages.value == []
    case CreateWorkspace(_) => r.workspace.None? || (Blank(r.workspace.value.0) && Blank(r.workspace.value.1))
    case Migrate(_, _, _) => false
    case DeployFunction(_, _, slug) => slug in r.failingSlugs
    case Bind(_, _, _) => !r.bind
    case Deploy(_, _) => r.deploy.None?
  }

  /** Migrations and functions may follow their like, anything else only lower ranks. */
  predicate Follows(before: seq<Entry>, e: Effect) {
    forall k :: 0 <= k < |before| && before[k].Did? ==>
      Rank(before[k].effect) < Rank(e)
      || (e.Migrate? && before[k].effect.Migrate?) || (e.DeployFunction? && before[k].effect.DeployFunction?)
  }

  predicate CreatedPages(before: seq<Entry>, name: string) {
    exists k :: 0 <= k < |before| && before[k].Did? && before[k].effect.CreatePages? && before[k].effect.name == name
  }

  predicate WasBound(before: seq<Entry>, pages: string) {
    exists k :: 0 <= k < |before| && before[k].Did? && before[k].effect.Bind? && before[k].effect.pages == pages
  }

  predicate Migrated(p: Params, r: Replies) {
    p.migrations.Some? ==>
      var names := Sort(MigrationNames(p.migrations.value));
      names != [] && MigrationsSucceed(p.migrations.value, names, r.failingFiles)
  }

  /** What an effect or observation takes: the effects and answers it builds on. */
  predicate Permitted(before: seq<Entry>, e: Entry, p: Params, r: Replies) {
    match e
    case SawReady(_, _) => e == ReadyEntry(r) && Provisioned(r)
    case SawDeployed(id) => r.deploy == Some(id) && DeploySucceeds(r.deployPolls, id)
    case Did(effect) =>
      Follows(before, effect) &&
      match effect
      case Upload(file) => p.resource == Some(file)
      case CreatePages(name, file) =>
        p.resource.Some? && Did(Upload(p.resource.value)) in before && r.upload == Some(file)
          && name == TrimSpace(p.projectName)
      case CreateWorkspace(name) => CreatedPages(before, name) && r.pages.Some? && r.pages.value != []
      case Migrate(workspace, branch, _) => SawReady(workspace, branch) in before && p.migrations.Some?
      case DeployFunction(workspace, branch, _) =>
        SawReady(workspace, branch) in before && p.functions.Some? && r.functionAccess && Migrated(p, r)
      case Bind(workspace, branch, pages) =>
        SawReady(workspace, branch) in before && r.pages == Some(pages) && Populated(p, r)
      case Deploy(pages, file) => WasBound(before, pages) && r.bind && r.upload == Some(file)
  }

  /** No call of the trace failed. */
  predicate AllWell(trace: seq<Entry>, r: Replies) {
    forall k :: 0 <= k < |trace| && trace[k].Did? ==> !Failed(trace[k].effect, r)
  }

  /** Everything in the trace was permitted when it came, and nothing came after a failure. */
  predicate InOrder(trace: seq<Entry>, p: Params, r: Replies) {
    trace == [] ||
      var before, last := trace[..|trace| - 1], trace[|trace| - 1];
      InOrder(before, p, r) && AllWell(before, r) && Permitted(before, last, p, r)
  }

  predicate MaxRank(trace: seq<Entry>, rank: nat) {
    forall k :: 0 <= k < |trace| && trace[k].Did? ==> Rank(trace[k].effect) <= rank
  }

  /** So far everything went well, up to effects of a rank. */
  ghost predicate WellUpTo(trace: seq<Entry>, p: Params, r: Replies, rank: nat) {
    InOrder(trace, p, r) && AllWell(trace, r) && MaxRank(trace, rank)
  }

  lemma Attempt(trace: seq<Entry>, e: Entry, p: Params, r: Replies, rank: nat)
    requires WellUpTo(trace, p, r, rank) && Permitted(trace, e, p, r)
    ensures InOrder(trace + [e], p, r)
    ensures (e.Did? ==> !Failed(e.effect, r) && Rank(e.effect) <= rank) ==> WellUpTo(trace + [e], p, r, rank)
  {
    assert (trace + [e])[..|trace|] == trace;
  }

  lemma Higher(trace: seq<Entry>, p: Params, r: Replies, rank: nat, higher: nat)
    requires WellUpTo(trace, p, r, rank) && rank <= higher
    ensures WellUpTo(trace, p, r, higher)
  {
  }

  /** What an orderly trace says about each of its entries. */
  lemma {:induction false} InOrderMeans(trace: seq<Entry>, p: Params, r: Replies, k: nat)
    requires InOrder(trace, p, r) && k < |trace|
    ensures AllWell(trace[..k], r) && Permitted(trace[..k], trace[k], p, r)
    ensures trace[k].Did? && Failed(trace[k].effect, r) ==> k == |trace| - 1
  {
    if k < |trace| - 1 {
      var before := trace[..|trace| - 1];
      assert before[..k] == trace[..k] && before[k] == trace[k];
      InOrderMeans(before, p, r, k);
      assert !(trace[k].Did? && Failed(before[k].effect, r));
    }
  }

  /** In the words of the remote side: no workspace without a pages project, no pages project
      without an upload, each with its answer; everything on the workspace after it was seen
      ready; migrations before functions, functions before the binding, the binding before the
      deployment; nothing at all after a call that failed. */
  lemma OrderOfEffects(trace: seq<Entry>, p: Params, r: Replies, k: nat)
    requires InOrder(trace, p, r) && k < |trace| && trace[k].Did?
    ensures trace[k].effect.CreatePages? ==>
      && r.upload == Some(trace[k].effect.resource)
      && exists j :: 0 <= j < k && trace[j].Did? && trace[j].effect.Upload?
    ensures trace[k].effect.CreateWorkspace? ==>
      && r.pages.Some? && r.pages.value != []
      && exists j :: 0 <= j < k && trace[j].Did? && trace[j].effect.CreatePages?
    ensures trace[k].effect.Migrate? || trace[k].effect.DeployFunction? || trace[k].effect.Bind? ==>
      && ReadyBranch(r.workspacePolls).Some?
      && exists j :: 0 <= j < k && trace[j].SawReady?
    ensures trace[k].effect.Deploy? ==>
      && r.bind
      && exists j :: 0 <= j < k && trace[j].Did? && trace[j].effect.Bind?
    ensures trace[k].effect.DeployFunction? ==>
      forall j :: 0 <= j < |trace| && trace[j].Did? && trace[j].effect.Migrate? ==> j < k
    ensures trace[k].effect.Bind? ==>
      forall j :: 0 <= j < |trace| && trace[j].Did? && (trace[j].effect.Migrate? || trace[j].effect.DeployFunction?)
        ==> j < k
    ensures Failed(trace[k].effect, r) ==> k == |trace| - 1
  {
    InOrderMeans(trace, p, r, k);
    var before, e := trace[..k], trace[k].effect;
    if e.CreatePages? {
      var j :| 0 <= j < k && before[j] == Did(Upload(p.resource.value));
      assert trace[j] == before[j];
    } else if e.CreateWorkspace? {
      var j :| 0 <= j < k && before[j].Did? && before[j].effect.CreatePages?;
      assert trace[j] == before[j];
    } else if e.Deploy? {
      var j :| 0 <= j < k && before[j].Did? && before[j].effect.Bind?;
      assert trace[j] == before[j];
    } else if !e.Upload? {
      var j :| 0 <= j < k && before[j].SawReady?;
      assert trace[j] == before[j];
      InOrderMeans(trace, p, r, j);
    }
    forall j | k < j < |trace| && trace[j].Did? ensures Rank(e) <= Rank(trace[j].effect) {
      InOrderMeans(trace, p, r, j);
      assert trace[..j][k] == trace[k];
    }
  }

  class Pipeline {
    var trace: seq<Entry>

    constructor ()
      ensures trace == []
    {
      trace := [];
    }

    method Log(e: Entry, ghost ready: Entry)
      requires ReadyFirst(trace, ready)
      requires e.Did? && NeedsReady(e.effect) ==> ready in trace
      modifies this
      ensures trace == old(trace) + [e] && ReadyFirst(trace, ready)
      ensures Effects(trace) == Effects(old(trace)) + if e.Did? then [e.effect] else []
    {
      LogStep(trace, e, ready);
      trace := trace + [e];
    }

    /** `waitForFastCreateWorkspaceReady`. */
    method WaitForWorkspace(polls: seq<Option<WorkspacePoll>>) returns (branch: Option<string>)
      ensures branch == ReadyBranch(polls)
    {
      var i := 0;
      assert polls[0..] == polls;
      while i < |polls|
        invariant 0 <= i <= |polls| && ReadyBranch(polls) == ReadyBranch(polls[i..])
      {
        assert polls[i..][1..] == polls[i + 1..];
        if polls[i].None? {
          return None;
        }
        if polls[i].value.status == "Running" {
          if polls[i].value.branch.None? {
            return None;
          }
          var b := polls[i].value.branch.value;
          if b.id != [] && b.status == "Ready" {
            return Some(b.id);
          }
        }
        i := i + 1;
      }
      return None;
    }

    /** The file selection of `runFastCreateMigrations`. */
    method SelectMigrations(entries: seq<DirEntry>) returns (files: seq<string>)
      ensures files == Sort(MigrationNames(entries))
    {
      files := [];
      for i := 0 to |entries|
        invariant files == MigrationNames(entries[..i])
      {
        assert entries[..i + 1][..i] == entries[..i];
        if entries[i].isDir || SkipMigration(entries[i].name) {
          continue;
        }
        files := files + [entries[i].name];
      }
      assert entries[..|entries|] == entries;
      files := Sort(files);
    }

    /** `runFastCreateMigrations` on a readable directory. */
    method RunMigrations(entries: seq<DirEntry>, workspace: string, branch: string, failing: set<nat>,
                         ghost p: Params, ghost r: Replies)
      returns (ok: bool)
      requires ReadyFirst(trace, SawReady(workspace, branch)) && SawReady(workspace, branch) in trace
      requires WellUpTo(trace, p, r, 3) && p.migrations == Some(entries) && failing == r.failingFiles
      modifies this
      ensures ReadyFirst(trace, SawReady(workspace, branch)) && SawReady(workspace, branch) in trace
      ensures Effects(trace) <= Effects(old(trace)) + SqlEffects(entries, workspace, branch)
      ensures ok <==>
        (var names := Sort(MigrationNames(entries)); names != [] && MigrationsSucceed(entries, names, failing))
      ensures ok ==> Effects(trace) == Effects(old(trace)) + SqlEffects(entries, workspace, branch)
      ensures InOrder(trace, p, r) && (ok ==> WellUpTo(trace, p, r, 3))
      ensures !ok ==> exists n ::
        && StopsAt(entries, failing, n)
        && Effects(trace) == Effects(old(trace)) + FirstMigrations(entries, n, workspace, branch)
    {
      var files := SelectMigrations(entries);
      ghost var before, ready := Effects(trace), SawReady(workspace, branch);
      if |files| == 0 {
        assert StopsAt(entries, failing, 0);
        assert Effects(trace) == before + FirstMigrations(entries, 0, workspace, branch);
        return false;
      }
      for i := 0 to |files|
        invariant ReadyFirst(trace, ready) && ready in trace && WellUpTo(trace, p, r, 3)
        invariant Effects(trace) == before + SqlEffectsOf(entries, files[..i], workspace, branch)
        invariant MigrationsSucceed(entries, files[..i], failing)
      {
        SqlEffectsStep(before, entries, files, i, workspace, branch);
        MigrationsStep(entries, files, i, failing);
        var content := ContentOf(entries, files[i]);
        if content.None? {
          assert StopsAt(entries, failing, i + 1);
          return false;
        }
        if Blank(content.value) {
          continue;
        }
        MigratePermitted(trace, workspace, branch, content.value, p, r);
        Log(Did(Migrate(workspace, branch, content.value)), ready);
        if i in failing {
          assert StopsAt(entries, failing, i + 1);
          return false;
        }
      }
      assert files[..|files|] == files;
      return true;
    }

    /** `deployFastCreateFunctions` once the functions directory was read. */
    method DeployFunctions(functions: seq<FunctionDir>, workspace: string, branch: string, access: bool,
                           failing: set<string>, ghost p: Params, ghost r: Replies)
      returns (ok: bool)
      requires ReadyFirst(trace, SawReady(workspace, branch)) && SawReady(workspace, branch) in trace
      requires WellUpTo(trace, p, r, 4) && p.functions == Some(functions) && Migrated(p, r)
      requires access == r.functionAccess && failing == r.failingSlugs
      modifies this
      ensures ReadyFirst(trace, SawReady(workspace, branch)) && SawReady(workspace, branch) in trace
      ensures Effects(trace) <= Effects(old(trace)) + Deploys(workspace, branch, Slugs(functions))
      ensures ok <==> access && Slugs(functions) != [] && FunctionsSucceed(functions, failing)
      ensures ok ==> Effects(trace) == Effects(old(trace)) + Deploys(workspace, branch, Slugs(functions))
      ensures InOrder(trace, p, r) && (ok ==> WellUpTo(trace, p, r, 4))
    {
      if !access {
        return false;
      }
      ghost var before, ready := Effects(trace), SawReady(workspace, branch);
      var deployed: seq<string> := [];
      for i := 0 to |functions|
        invariant ReadyFirst(trace, ready) && ready in trace && WellUpTo(trace, p, r, 4)
        invariant deployed == Slugs(functions[..i])
        invariant Effects(trace) == before + Deploys(workspace, branch, deployed)
        invariant FunctionsSucceed(functions[..i], failing)
      {
        DeploysStep(before, functions, i, workspace, branch);
        FunctionsStep(functions, i, failing);
        var f := functions[i];
        if !f.isDir || "." <= f.slug {
          continue;
        }
        if !f.usable {
          return false;
        }
        DeployPermitted(trace, workspace, branch, f.slug, p, r);
        Log(Did(DeployFunction(workspace, branch, f.slug)), ready);
        if f.slug in failing {
          return false;
        }
        deployed := deployed + [f.slug];
      }
      assert functions[..|functions|] == functions;
      return |deployed| > 0;
    }

    /** The scan of one deployment listing. */
    method ScanDeployments(deployments: seq<Deployment>, deployId: string) returns (ok: bool)
      ensures ok == ListsSuccess(deployments, deployId)
    {
      assert deployments[0..] == deployments;
      for i := 0 to |deployments|
        invariant ListsSuccess(deployments, deployId) == ListsSuccess(deployments[i..], deployId)
      {
        assert deployments[i..][1..] == deployments[i + 1..];
        var id := TrimSpace(deployments[i].id);
        if id == [] {
          id := TrimSpace(deployments[i].deployId);
        }
        if id != deployId {
          continue;
        }
        return deployments[i].status == "DeploySuccess";
      }
      return false;
    }

    /** `waitForPagesDeploySuccess`. */
    method WaitForDeploy(polls: seq<Option<seq<Deployment>>>, deployId: string) returns (ok: bool)
      ensures ok == DeploySucceeds(polls, deployId)
    {
      var i := 0;
      assert polls[0..] == polls;
      while i < |polls|
        invariant 0 <= i <= |polls| && DeploySucceeds(polls, deployId) == DeploySucceeds(polls[i..], deployId)
      {
        assert polls[i..][1..] == polls[i + 1..];
        if polls[i].None? {
          return false;
        }
        var found := ScanDeployments(polls[i].value, deployId);
        if found {
          return true;
        }
        i := i + 1;
      }
      return false;
    }

    /** Upload, pages project and workspace, up to the new workspace's id. */
    method CreateProject(p: Params, r: Replies) returns (workspace: string)
      requires trace == [] && p.resource.Some?
      modifies this
      ensures ReadyFirst(trace, ReadyEntry(r)) && Effects(trace) <= Opening(p, r) && ReadyEntry(r) !in trace
      ensures InOrder(trace, p, r)
      ensures workspace != [] <==>
        r.upload.Some? && r.pages.Some? && r.pages.value != [] && WorkspaceId(r) != []
      ensures workspace != [] ==>
        workspace == WorkspaceId(r) && Effects(trace) == Opening(p, r) && WellUpTo(trace, p, r, 2)
    {
      var name := ProjectName(p);
      OpeningFacts(p, r);
      UploadPermitted(p, r);
      trace := [Did(Upload(p.resource.value))];
      if r.upload.None? {
        return [];
      }
      PagesPermitted(trace, p, r);
      trace := trace + [Did(CreatePages(name, r.upload.value))];
      if r.pages.None? || r.pages.value == [] {
        return [];
      }
      WorkspacePermitted(trace, p, r);
      trace := trace + [Did(CreateWorkspace(name))];
      if r.workspace.None? {
        return [];
      }
      workspace := TrimSpace(r.workspace.value.0);
      if workspace == [] {
        workspace := TrimSpace(r.workspace.value.1);
      }
    }

    /** The project, and the wait until its workspace is ready. */
    method Provision(p: Params, r: Replies) returns (ok: bool)
      requires trace == [] && p.resource.Some?
      modifies this
      ensures ReadyFirst(trace, ReadyEntry(r)) && Effects(trace) <= Opening(p, r)
      ensures ok <==> Provisioned(r)
      ensures ok ==> Effects(trace) == Opening(p, r) && ReadyEntry(r) in trace
      ensures ReadyEntry(r) in trace ==> Provisioned(r)
      ensures InOrder(trace, p, r) && (ok ==> WellUpTo(trace, p, r, 2))
    {
      var workspace := CreateProject(p, r);
      if workspace == [] {
        return false;
      }
      var branch := WaitForWorkspace(r.workspacePolls);
      if branch.None? {
        return false;
      }
      var branchId := TrimSpace(branch.value);
      if branchId == [] {
        return false;
      }
      Attempt(trace, SawReady(workspace, branchId), p, r, 2);
      Log(SawReady(workspace, branchId), ReadyEntry(r));
      return true;
    }

    /** Binding and deployment. */
    method BindAndDeploy(workspace: string, branch: string, pages: string, resource: string, r: Replies,
                         ghost p: Params)
      returns (ok: bool)
      requires ReadyFirst(trace, SawReady(workspace, branch)) && SawReady(workspace, branch) in trace
      requires WellUpTo(trace, p, r, 4) && Populated(p, r) && r.pages == Some(pages) && r.upload == Some(resource)
      modifies this
      ensures ReadyFirst(trace, SawReady(workspace, branch)) && InOrder(trace, p, r)
      ensures Effects(trace) <= Effects(old(trace)) + [Bind(workspace, branch, pages), Deploy(pages, resource)]
      ensures ok <==> r.bind && r.deploy.Some?
      ensures ok ==>
        && WellUpTo(trace, p, r, 6)
        && Effects(trace) == Effects(old(trace)) + [Bind(workspace, branch, pages), Deploy(pages, resource)]
        && trace == old(trace) + [Did(Bind(workspace, branch, pages)), Did(Deploy(pages, resource))]
    {
      ghost var ready := SawReady(workspace, branch);
      BindPermitted(trace, workspace, branch, pages, p, r);
      Log(Did(Bind(workspace, branch, pages)), ready);
      if !r.bind {
        return false;
      }
      DeployPagesPermitted(trace, workspace, branch, pages, resource, p, r);
      Log(Did(Deploy(pages, resource)), ready);
      return r.deploy.Some?;
    }

    /** Binding, deployment and the wait until it succeeded. */
    method Publish(workspace: string, branch: string, pages: string, resource: string, r: Replies, ghost p: Params)
      returns (domain: Option<string>)
      requires ReadyFirst(trace, SawReady(workspace, branch)) && SawReady(workspace, branch) in trace
      requires WellUpTo(trace, p, r, 4) && Populated(p, r) && r.pages == Some(pages) && r.upload == Some(resource)
      modifies this
      ensures ReadyFirst(trace, SawReady(workspace, branch)) && InOrder(trace, p, r)
      ensures Effects(trace) <= Effects(old(trace)) + [Bind(workspace, branch, pages), Deploy(pages, resource)]
      ensures domain.Some? <==> Published(r)
      ensures domain.Some? ==>
        && domain.value == TrimSpace(r.previewDomain.value)
        && Effects(trace) == Effects(old(trace)) + [Bind(workspace, branch, pages), Deploy(pages, resource)]
        && trace == old(trace) + [Did(Bind(workspace, branch, pages)), Did(Deploy(pages, resource)),
                                  SawDeployed(r.deploy.value)]
    {
      var deployed := BindAndDeploy(workspace, branch, pages, resource, r, p);
      if !deployed {
        return None;
      }
      var succeeded := WaitForDeploy(r.deployPolls, r.deploy.value);
      if !succeeded {
        return None;
      }
      Attempt(trace, SawDeployed(r.deploy.value), p, r, 6);
      Log(SawDeployed(r.deploy.value), SawReady(workspace, branch));
      if r.previewDomain.None? || TrimSpace(r.previewDomain.value) == [] {
        return None;
      }
      return Some(TrimSpace(r.previewDomain.value));
    }

    /** Migrations and functions, where asked for. */
    method Populate(p: Params, r: Replies) returns (ok: bool)
      requires ReadyFirst(trace, ReadyEntry(r)) && ReadyEntry(r) in trace && WellUpTo(trace, p, r, 2)
      modifies this
      ensures ReadyFirst(trace, ReadyEntry(r)) && ReadyEntry(r) in trace
      ensures InOrder(trace, p, r) && (ok ==> WellUpTo(trace, p, r, 4))
      ensures Effects(trace) <= Effects(old(trace)) + (MigrationPlan(p, r) + FunctionPlan(p, r))
      ensures ok <==> Populated(p, r)
      ensures ok ==> Effects(trace) == Effects(old(trace)) + (MigrationPlan(p, r) + FunctionPlan(p, r))
    {
      var workspace, branch := WorkspaceId(r), BranchId(r);
      ghost var before := Effects(trace);
      Reassociate(before, MigrationPlan(p, r), FunctionPlan(p, r));
      Higher(trace, p, r, 2, 3);
      if p.migrations.Some? {
        ok := RunMigrations(p.migrations.value, workspace, branch, r.failingFiles, p, r);
        if !ok {
          return;
        }
      }
      assert Effects(trace) == before + MigrationPlan(p, r);
      Higher(trace, p, r, 3, 4);
      if p.functions.Some? {
        ok := DeployFunctions(p.functions.value, workspace, branch, r.functionAccess, r.failingSlugs, p, r);
        if !ok {
          return;
        }
      }
      ok := true;
    }

    /** `RunFastCreate`. */
    method RunFastCreate(p: Params, r: Replies) returns (result: Option<Created>)
      requires trace == []
      modifies this
      ensures Effects(trace) <= Plan(p, r) && ReadyFirst(trace, ReadyEntry(r))
      ensures ReadyEntry(r) in trace ==> Provisioned(r)
      ensures InOrder(trace, p, r)
      ensures result.Some? <==> GoesThrough(p, r)
      ensures result.Some? ==>
        && Effects(trace) == Plan(p, r) && |trace| >= 2
        && trace[|trace| - 2] == Did(Deploy(result.value.pages, result.value.resource))
        && trace[|trace| - 1] == SawDeployed(result.value.deployId)
        && r.workspace.Some? && result.value.workspace != []
        && (TrimSpace(r.workspace.value.0) != [] ==> result.value.workspace == TrimSpace(r.workspace.value.0))
        && (TrimSpace(r.workspace.value.0) == [] ==> result.value.workspace == TrimSpace(r.workspace.value.1))
        && result.value == Created(r.pages.value, ProjectName(p), WorkspaceId(r), BranchId(r), r.upload.value,
                                   r.deploy.value, TrimSpace(r.previewDomain.value))
    {
      if !ValidName(ProjectName(p)) || p.resource.None? || !p.dirsValid || !r.rolesGranted {
        return None;
      }
      ghost var body := MigrationPlan(p, r) + FunctionPlan(p, r);
      assert Plan(p, r) == Opening(p, r) + body + Closing(r);
      var ok := Provision(p, r);
      if !ok {
        return None;
      }
      ok := Populate(p, r);
      if !ok {
        return None;
      }
      var domain := Publish(WorkspaceId(r), BranchId(r), r.pages.value, r.upload.value, r, p);
      if domain.None? {
        return None;
      }
      return Some(Created(r.pages.value, ProjectName(p), WorkspaceId(r), BranchId(r), r.upload.value, r.deploy.value,
                          domain.value));
    }
  }

  // ---------------------------------------------------------------------------
  // Each step is permitted in its turn

  /** The first three effects, as far as they come about. */
  predicate OpeningFact(trace: seq<Entry>, p: Params, r: Replies) {
    ReadyFirst(trace, ReadyEntry(r)) && Effects(trace) <= Opening(p, r) && ReadyEntry(r) !in trace
  }

  lemma OpeningFacts(p: Params, r: Replies)
    requires p.resource.Some?
    ensures var one := [Did(Upload(p.resource.value))];
      && OpeningFact(one, p, r)
      && (r.upload.Some? ==>
           var two := one + [Did(CreatePages(ProjectName(p), r.upload.value))];
           var three := two + [Did(CreateWorkspace(ProjectName(p)))];
           OpeningFact(two, p, r) && OpeningFact(three, p, r) && Effects(three) == Opening(p, r))
  {
    var one := [Did(Upload(p.resource.value))];
    LogStep([], one[0], ReadyEntry(r));
    assert [] + one == one;
    if r.upload.Some? {
      var two := one + [Did(CreatePages(ProjectName(p), r.upload.value))];
      LogStep(one, Did(CreatePages(ProjectName(p), r.upload.value)), ReadyEntry(r));
      LogStep(two, Did(CreateWorkspace(ProjectName(p))), ReadyEntry(r));
    }
  }

  lemma UploadPermitted(p: Params, r: Replies)
    requires p.resource.Some?
    ensures var e := Did(Upload(p.resource.value));
      InOrder([e], p, r) && (r.upload.Some? ==> WellUpTo([e], p, r, 2))
  {
    assert WellUpTo([], p, r, 2) && [] + [Did(Upload(p.resource.value))] == [Did(Upload(p.resource.value))];
    Attempt([], Did(Upload(p.resource.value)), p, r, 2);
  }

  lemma PagesPermitted(trace: seq<Entry>, p: Params, r: Replies)
    requires p.resource.Some? && trace == [Did(Upload(p.resource.value))] && WellUpTo(trace, p, r, 2) && r.upload.Some?
    ensures var e := Did(CreatePages(ProjectName(p), r.upload.value));
      InOrder(trace + [e], p, r) && (!Failed(e.effect, r) ==> WellUpTo(trace + [e], p, r, 2))
  {
    assert trace[0] in trace;
    Attempt(trace, Did(CreatePages(ProjectName(p), r.upload.value)), p, r, 2);
  }

  lemma WorkspacePermitted(trace: seq<Entry>, p: Params, r: Replies)
    requires p.resource.Some? && r.upload.Some? && r.pages.Some? && r.pages.value != []
    requires trace == [Did(Upload(p.resource.value)), Did(CreatePages(ProjectName(p), r.upload.value))]
    requires WellUpTo(trace, p, r, 2)
    ensures var e := Did(CreateWorkspace(ProjectName(p)));
      InOrder(trace + [e], p, r) && (!Failed(e.effect, r) ==> WellUpTo(trace + [e], p, r, 2))
  {
    assert trace[1].effect.CreatePages?;
    Attempt(trace, Did(CreateWorkspace(ProjectName(p))), p, r, 2);
  }

  lemma MigratePermitted(trace: seq<Entry>, workspace: string, branch: string, sql: string, p: Params, r: Replies)
    requires WellUpTo(trace, p, r, 3) && SawReady(workspace, branch) in trace && p.migrations.Some?
    ensures WellUpTo(trace + [Did(Migrate(workspace, branch, sql))], p, r, 3)
  {
    assert Follows(trace, Migrate(workspace, branch, sql));
    Attempt(trace, Did(Migrate(workspace, branch, sql)), p, r, 3);
  }

  lemma DeployPermitted(trace: seq<Entry>, workspace: string, branch: string, slug: string, p: Params, r: Replies)
    requires WellUpTo(trace, p, r, 4) && SawReady(workspace, branch) in trace
    requires p.functions.Some? && r.functionAccess && Migrated(p, r)
    ensures var e := Did(DeployFunction(workspace, branch, slug));
      InOrder(trace + [e], p, r) && (slug !in r.failingSlugs ==> WellUpTo(trace + [e], p, r, 4))
  {
    assert Follows(trace, DeployFunction(workspace, branch, slug));
    Attempt(trace, Did(DeployFunction(workspace, branch, slug)), p, r, 4);
  }

  lemma BindPermitted(trace: seq<Entry>, workspace: string, branch: string, pages: string, p: Params, r: Replies)
    requires WellUpTo(trace, p, r, 4) && SawReady(workspace, branch) in trace
    requires r.pages == Some(pages) && Populated(p, r)
    ensures var e := Did(Bind(workspace, branch, pages));
      InOrder(trace + [e], p, r) && (r.bind ==> WellUpTo(trace + [e], p, r, 5))
  {
    Higher(trace, p, r, 4, 5);
    Attempt(trace, Did(Bind(workspace, branch, pages)), p, r, 5);
  }

  lemma DeployPagesPermitted(trace: seq<Entry>, workspace: string, branch: string, pages: string, file: string,
                             p: Params, r: Replies)
    requires trace != [] && trace[|trace| - 1] == Did(Bind(workspace, branch, pages)) && WellUpTo(trace, p, r, 5)
    requires r.bind && r.upload == Some(file)
    ensures var e := Did(Deploy(pages, file));
      InOrder(trace + [e], p, r) && (r.deploy.Some? ==> WellUpTo(trace + [e], p, r, 6))
  {
    Higher(trace, p, r, 5, 6);
    assert WasBound(trace, pages);
    Attempt(trace, Did(Deploy(pages, file)), p, r, 6);
  }

  /** The `n`-th of the sorted migration files, counted from one, is the first that cannot be read
      or fails; with no files at all the migrations stop at none. */
  predicate StopsAt(entries: seq<DirEntry>, failing: set<nat>, n: nat) {
    var names := Sort(MigrationNames(entries));
    && n <= |names| && (n == 0 ==> names == [])
    && (n > 0 ==>
         && !MigrationSucceeds(ContentOf(entries, names[n - 1]), n - 1 in failing)
         && MigrationsSucceed(entries, names[..n - 1], failing))
  }

  function FirstMigrations(entries: seq<DirEntry>, n: nat, workspace: string, branch: string): seq<Effect> {
    var names := Sort(MigrationNames(entries));
    SqlEffectsOf(entries, if n <= |names| then names[..n] else names, workspace, branch)
  }

  // ---------------------------------------------------------------------------
  // Facts about the plan

  function SqlEffectsOf(entries: seq<DirEntry>, names: seq<string>, workspace: string, branch: string): seq<Effect> {
    Migrates(workspace, branch, SqlPlan(entries, names))
  }

  function SqlEffects(entries: seq<DirEntry>, workspace: string, branch: string): seq<Effect> {
    SqlEffectsOf(entries, Sort(MigrationNames(entries)), workspace, branch)
  }

  lemma Reassociate(a: seq<Effect>, b: seq<Effect>, c: seq<Effect>)
    ensures (a + b) + c == a + (b + c)
  {
  }

  lemma PrefixAfter(a: seq<Effect>, b: seq<Effect>, c: seq<Effect>)
    requires b <= c
    ensures a + b <= a + c
  {
    assert c == b + c[|b|..];
    Reassociate(a, b, c[|b|..]);
  }

  lemma SqlEffectsStep(before: seq<Effect>, entries: seq<DirEntry>, names: seq<string>, i: nat, workspace: string,
                       branch: string)
    requires i < |names|
    ensures var content := ContentOf(entries, names[i]);
      before + SqlEffectsOf(entries, names[..i + 1], workspace, branch) ==
        before + SqlEffectsOf(entries, names[..i], workspace, branch)
        + if content.Some? && !Blank(content.value) then [Migrate(workspace, branch, content.value)] else []
    ensures before + SqlEffectsOf(entries, names[..i], workspace, branch)
      <= before + SqlEffectsOf(entries, names, workspace, branch)
    ensures before + SqlEffectsOf(entries, names[..i + 1], workspace, branch)
      <= before + SqlEffectsOf(entries, names, workspace, branch)
  {
    assert names[..i + 1][..i] == names[..i];
    SqlPlanPrefix(entries, names, i);
    SqlPlanPrefix(entries, names, i + 1);
    PrefixAfter(before, SqlEffectsOf(entries, names[..i], workspace, branch),
                SqlEffectsOf(entries, names, workspace, branch));
    PrefixAfter(before, SqlEffectsOf(entries, names[..i + 1], workspace, branch),
                SqlEffectsOf(entries, names, workspace, branch));
  }

  lemma MigrationsStep(entries: seq<DirEntry>, names: seq<string>, i: nat, failing: set<nat>)
    requires i < |names| && MigrationsSucceed(entries, names[..i], failing)
    ensures MigrationsSucceed(entries, names[..i + 1], failing) <==>
      MigrationSucceeds(ContentOf(entries, names[i]), i in failing)
    ensures !MigrationSucceeds(ContentOf(entries, names[i]), i in failing) ==>
      !MigrationsSucceed(entries, names, failing)
  {
    assert names[..i + 1] == names[..i] + [names[i]];
  }

  lemma {:induction false} FunctionsPrefix(functions: seq<FunctionDir>, n: nat, failing: set<string>)
    requires n <= |functions| && FunctionsSucceed(functions, failing)
    ensures FunctionsSucceed(functions[..n], failing)
  {
    if n == |functions| {
      assert functions[..n] == functions;
    } else {
      assert functions[..|functions| - 1][..n] == functions[..n];
      FunctionsPrefix(functions[..|functions| - 1], n, failing);
    }
  }

  lemma FunctionsStep(functions: seq<FunctionDir>, i: nat, failing: set<string>)
    requires i < |functions| && FunctionsSucceed(functions[..i], failing)
    ensures FunctionsSucceed(functions[..i + 1], failing) <==> FunctionSucceeds(functions[i], failing)
    ensures !FunctionSucceeds(functions[i], failing) ==> !FunctionsSucceed(functions, failing)
  {
    assert functions[..i + 1][..i] == functions[..i];
    if FunctionsSucceed(functions, failing) {
      FunctionsPrefix(functions, i + 1, failing);
    }
  }

  lemma {:induction false} SqlPlanPrefix(entries: seq<DirEntry>, names: seq<string>, n: nat)
    requires n <= |names|
    ensures SqlPlan(entries, names[..n]) <= SqlPlan(entries, names)
  {
    if n == |names| {
      assert names[..n] == names;
    } else {
      assert names[..|names| - 1][..n] == names[..n];
      SqlPlanPrefix(entries, names[..|names| - 1], n);
    }
  }

  lemma DeploysStep(before: seq<Effect>, functions: seq<FunctionDir>, i: nat, workspace: string, branch: string)
    requires i < |functions|
    ensures var done, more := Slugs(functions[..i]), Slugs(functions[..i + 1]);
      && more == (if VisibleFunction(functions[i]) then done + [functions[i].slug] else done)
      && before + Deploys(workspace, branch, more) == before + Deploys(workspace, branch, done)
        + (if VisibleFunction(functions[i]) then [DeployFunction(workspace, branch, functions[i].slug)] else [])
      && before + Deploys(workspace, branch, done) <= before + Deploys(workspace, branch, Slugs(functions))
      && before + Deploys(workspace, branch, more) <= before + Deploys(workspace, branch, Slugs(functions))
  {
    assert functions[..i + 1][..i] == functions[..i];
    if VisibleFunction(functions[i]) {
      DeploysOneMore(before, Slugs(functions[..i]), functions[i].slug, workspace, branch);
    }
    SlugsPrefix(functions, i);
    SlugsPrefix(functions, i + 1);
    DeploysPrefix(before, Slugs(functions[..i]), Slugs(functions), workspace, branch);
    DeploysPrefix(before, Slugs(functions[..i + 1]), Slugs(functions), workspace, branch);
  }

  lemma DeploysOneMore(before: seq<Effect>, done: seq<string>, slug: string, workspace: string, branch: string)
    ensures before + Deploys(workspace, branch, done + [slug])
      == before + Deploys(workspace, branch, done) + [DeployFunction(workspace, branch, slug)]
  {
    assert Deploys(workspace, branch, done + [slug])
        == Deploys(workspace, branch, done) + [DeployFunction(workspace, branch, slug)];
  }

  lemma DeploysPrefix(before: seq<Effect>, a: seq<string>, b: seq<string>, workspace: string, branch: string)
    requires a <= b
    ensures before + Deploys(workspace, branch, a) <= before + Deploys(workspace, branch, b)
  {
    PrefixAfter(before, Deploys(workspace, branch, a), Deploys(workspace, branch, b));
  }

  lemma {:induction false} SlugsPrefix(functions: seq<FunctionDir>, n: nat)
    requires n <= |functions|
    ensures Slugs(functions[..n]) <= Slugs(functions)
  {
    if n == |functions| {
      assert functions[..n] == functions;
    } else {
      assert functions[..|functions| - 1][..n] == functions[..n];
      SlugsPrefix(functions[..|functions| - 1], n);
    }
  }

  /** An effect that needs the workspace has the ready observation before it. */
  lemma {:induction false} ReadyFirstMeans(trace: seq<Entry>, ready: Entry, k: nat)
    requires ReadyFirst(trace, ready) && k < |trace| && trace[k].Did? && NeedsReady(trace[k].effect)
    ensures ready in trace[..k]
  {
    if k < |trace| - 1 {
      assert trace[..|trace| - 1][..k] == trace[..k];
      ReadyFirstMeans(trace[..|trace| - 1], ready, k);
    }
  }

  /** A poll that ends the wait: a Running workspace whose branch is Ready. */
  predicate Shows(poll: Option<WorkspacePoll>, branch: string) {
    && poll.Some? && poll.value.status == "Running" && poll.value.branch.Some?
    && poll.value.branch.value == BranchReply(branch, "Ready") && branch != []
  }

  /** A poll after which the wait goes on: the call succeeded, and the workspace is not running, or
      its branch is known but has no id yet or is not Ready. */
  predicate GoesOn(poll: Option<WorkspacePoll>) {
    && poll.Some?
    && (poll.value.status == "Running" ==> poll.value.branch.Some? && !Shows(poll, poll.value.branch.value.id))
  }

  ghost predicate ShownAt(polls: seq<Option<WorkspacePoll>>, branch: string, i: nat) {
    i < |polls| && Shows(polls[i], branch) && forall j :: 0 <= j < i ==> GoesOn(polls[j])
  }

  /** The wait finds a branch if and only if some poll shows it and none before ends the wait. */
  lemma {:induction false} ReadyExactly(polls: seq<Option<WorkspacePoll>>, branch: string)
    ensures ReadyBranch(polls) == Some(branch) <==> exists i :: ShownAt(polls, branch, i)
  {
    if polls != [] {
      ReadyExactly(polls[1..], branch);
      if i: nat :| ShownAt(polls[1..], branch, i) {
        if GoesOn(polls[0]) {
          assert forall j :: 0 <= j < i + 1 ==> polls[j] == if j == 0 then polls[0] else polls[1..][j - 1];
          assert ShownAt(polls, branch, i + 1);
        }
      }
      if i: nat :| ShownAt(polls, branch, i) {
        if i > 0 {
          assert forall j :: 0 <= j < i - 1 ==> polls[1..][j] == polls[j + 1];
          assert ShownAt(polls[1..], branch, i - 1);
        }
      }
      if Shows(polls[0], branch) { assert ShownAt(polls, branch, 0); }
    }
  }

  /** A ready branch was reported by a poll that found the workspace Running and the branch
      Ready, after polls that all succeeded. */
  lemma {:induction false} ReadyWasObserved(polls: seq<Option<WorkspacePoll>>) returns (i: nat)
    requires ReadyBranch(polls).Some?
    ensures i < |polls|
    ensures polls[i] == Some(WorkspacePoll("Running", Some(BranchReply(ReadyBranch(polls).value, "Ready"))))
    ensures forall j :: 0 <= j < i ==> polls[j].Some?
  {
    if polls[0].value.status == "Running" && polls[0].value.branch.value.id != []
      && polls[0].value.branch.value.status == "Ready" {
      i := 0;
    } else {
      var k := ReadyWasObserved(polls[1..]);
      i := k + 1;
    }
  }

  predicate ShowsSuccess(poll: Option<seq<Deployment>>, deployId: string) {
    poll.Some? && exists d :: d in poll.value && DeploymentId(d) == deployId && d.status == "DeploySuccess"
  }

  /** A deployment counts as successful only after a listing showed DeploySuccess for its id. */
  lemma {:induction false} SuccessWasListed(polls: seq<Option<seq<Deployment>>>, deployId: string)
    requires DeploySucceeds(polls, deployId)
    ensures exists i :: 0 <= i < |polls| && ShowsSuccess(polls[i], deployId)
  {
    if ListsSuccess(polls[0].value, deployId) {
      var j := ListedEntry(polls[0].value, deployId);
      assert polls[0].value[j] in polls[0].value;
      assert ShowsSuccess(polls[0], deployId);
    } else {
      SuccessWasListed(polls[1..], deployId);
      var i :| 0 <= i < |polls[1..]| && ShowsSuccess(polls[1..][i], deployId);
      assert polls[i + 1] == polls[1..][i];
    }
  }

  lemma {:induction false} ListedEntry(deployments: seq<Deployment>, deployId: string) returns (j: nat)
    requires ListsSuccess(deployments, deployId)
    ensures j < |deployments| && DeploymentId(deployments[j]) == deployId && deployments[j].status == "DeploySuccess"
  {
    if DeploymentId(deployments[0]) == deployId {
      j := 0;
    } else {
      var k := ListedEntry(deployments[1..], deployId);
      j := k + 1;
    }
  }

  /** The first entry for the deployment in a listing says that it succeeded. */
  ghost predicate Succeeded(listing: seq<Deployment>, id: string) {
    exists k :: SucceededAt(listing, id, k)
  }

  ghost predicate SucceededAt(listing: seq<Deployment>, id: string, k: nat) {
    && k < |listing| && DeploymentId(listing[k]) == id && listing[k].status == "DeploySuccess"
    && forall j :: 0 <= j < k ==> DeploymentId(listing[j]) != id
  }

  lemma {:induction false} ListsExactly(listing: seq<Deployment>, id: string)
    ensures ListsSuccess(listing, id) <==> Succeeded(listing, id)
  {
    if listing != [] {
      ListsExactly(listing[1..], id);
      if k: nat :| SucceededAt(listing[1..], id, k) {
        if DeploymentId(listing[0]) != id {
          assert forall j :: 0 <= j < k + 1 ==> listing[j] == if j == 0 then listing[0] else listing[1..][j - 1];
          assert SucceededAt(listing, id, k + 1);
        }
      }
      if k: nat :| SucceededAt(listing, id, k) {
        if k > 0 {
          assert forall j :: 0 <= j < k - 1 ==> listing[1..][j] == listing[j + 1];
          assert SucceededAt(listing[1..], id, k - 1);
        }
      }
      if ListsSuccess(listing, id) && DeploymentId(listing[0]) == id { assert SucceededAt(listing, id, 0); }
    }
  }

  ghost predicate DeployedAt(polls: seq<Option<seq<Deployment>>>, id: string, i: nat) {
    i < |polls| && (forall j :: 0 <= j <= i ==> polls[j].Some?) && Succeeded(polls[i].value, id)
  }

  /** The wait for the deployment ends well if and only if some listing says so of the first entry
      with its id, and no call failed up to then. */
  lemma {:induction false} DeploySucceedsExactly(polls: seq<Option<seq<Deployment>>>, id: string)
    ensures DeploySucceeds(polls, id) <==> exists i :: DeployedAt(polls, id, i)
  {
    if polls != [] {
      DeploySucceedsExactly(polls[1..], id);
      if polls[0].Some? {
        ListsExactly(polls[0].value, id);
        if Succeeded(polls[0].value, id) { assert DeployedAt(polls, id, 0); }
        if i: nat :| DeployedAt(polls[1..], id, i) {
          assert forall j :: 0 <= j <= i + 1 ==> polls[j] == if j == 0 then polls[0] else polls[1..][j - 1];
          assert DeployedAt(polls, id, i + 1);
        }
      }
      if i: nat :| DeployedAt(polls, id, i) {
        if i > 0 {
          assert forall j :: 0 <= j <= i - 1 ==> polls[1..][j] == polls[j + 1];
          assert DeployedAt(polls[1..], id, i - 1);
        }
      }
    }
  }

  /** The files taken for migrations: not directories, not hidden, ending in .sql in any case. */
  lemma {:induction false} MigrationNamesExactly(entries: seq<DirEntry>, name: string)
    ensures name in MigrationNames(entries) <==>
      && (exists e :: e in entries && e.name == name && !e.isDir)
      && |name| >= 4 && name[0] != '.' && name[|name| - 4] == '.'
      && name[|name| - 3] in "sS" && name[|name| - 2] in "qQ" && name[|name| - 1] in "lL"
  {
    if entries != [] {
      var init, last := entries[..|entries| - 1], entries[|entries| - 1];
      MigrationNamesExactly(init, name);
      SqlSuffix(last.name);
      assert entries == init + [last];
    }
  }

  lemma SqlSuffix(name: string)
    ensures SkipMigration(name) <==>
      !(&& |name| >= 4 && name[0] != '.' && name[|name| - 4] == '.'
        && name[|name| - 3] in "sS" && name[|name| - 2] in "qQ" && name[|name| - 1] in "lL")
  {
    if |name| >= 4 {
      var n := |name|;
      var suffix := ToLower(name)[n - 4..];
      assert suffix == [suffix[0], suffix[1], suffix[2], suffix[3]];
    }
  }

  /** The migrations run are exactly the readable, non-blank files selected, in ascending order
      of their names. */
  lemma {:induction false} SqlPlanIsOrdered(entries: seq<DirEntry>)
    ensures var names := Sort(MigrationNames(entries));
      Sorted(names) && multiset(names) == multiset(MigrationNames(entries))
    ensures forall sql :: sql in SqlPlan(entries, Sort(MigrationNames(entries))) <==>
      exists name :: name in MigrationNames(entries) && ContentOf(entries, name) == Some(sql) && !Blank(sql)
  {
    var names := MigrationNames(entries);
    SortSorts(names);
    SqlPlanContents(entries, Sort(names));
    forall n ensures n in Sort(names) <==> n in names {
      assert n in multiset(Sort(names)) <==> n in multiset(names);
    }
  }

  lemma {:induction false} SqlPlanContents(entries: seq<DirEntry>, names: seq<string>)
    ensures forall sql :: sql in SqlPlan(entries, names) <==>
      exists name :: name in names && ContentOf(entries, name) == Some(sql) && !Blank(sql)
  {
    if names != [] {
      var init, last := names[..|names| - 1], names[|names| - 1];
      SqlPlanContents(entries, init);
      assert names == init + [last];
      forall sql ensures sql in SqlPlan(entries, names) <==>
        exists name :: name in names && ContentOf(entries, name) == Some(sql) && !Blank(sql)
      {
        if sql in SqlPlan(entries, init) {
          var name :| name in init && ContentOf(entries, name) == Some(sql) && !Blank(sql);
          assert name in names;
        } else if ContentOf(entries, last) == Some(sql) && !Blank(sql) {
          assert last in names;
        }
      }
    }
  }
}
