/** The configure commands on the profile file and the agent-plan file.
    Source: cmd/configure_factory.go, internal/volcengine/config.go, supabase_config.go. */
module ProfileStore {
  import opened Wrappers
  import opened Text
  import opened StringOrder

  const DEFAULT := "default"
  const DEFAULT_REGION := "cn-beijing"

  datatype Profile = Profile(name: string, mode: string, accessKey: string, secretKey: string,
                             region: string, endpoint: string)

  datatype Plan = Plan(isAgentPlan: bool, seat: string)

  /** The two files: current profile and profiles in one, agent-plan entries in the other. */
  datatype Store = Store(current: string, profiles: map<string, Profile>, plans: map<string, Plan>)

  const EMPTY := Store(DEFAULT, map[], map[])

  /** A flag is None when it was not given. */
  datatype Command =
    | SetKeys(profile: string, accessKey: string, secretKey: string, region: string, endpoint: string,
              plan: Option<bool>, seat: Option<string>)
    | Use(profile: string, arg: Option<string>)
    | SetRegion(profile: string, region: string)
    | SetPlan(profile: string, plan: Option<bool>, seat: Option<string>)
    | Delete(profile: string, arg: Option<string>, choice: Option<string>, confirmed: bool)

  /** Where a command that passed its checks fails or is cut short: not at all; before it renamed
      anything into place; after the first file; or after all of them, in the chmod that follows
      the last rename or when its message cannot be written. */
  datatype Fault = NoFault | BeforeSaving | AfterFirstFile | AfterSaving

  datatype ConfigError = MissingAccessKey | MissingSecretKey | InvalidRegion | ConflictingFlags
    | ProfileNotFound | MissingName | Canceled | IOFailed

  datatype Outcome = Succeeded | ShowedHelp | Failed(error: ConfigError)

  datatype Call = Call(command: Command, fault: Fault)

  /** What a command reports once its files are saved. */
  function Report(fault: Fault): Outcome {
    if fault.NoFault? then Succeeded else Failed(IOFailed)
  }

  // ---------------------------------------------------------------------------
  // Names and flags

  function TrimmedOr(s: string, otherwise: string): string {
    if TrimSpace(s) != [] then TrimSpace(s) else otherwise
  }

  function ArgText(arg: Option<string>): string {
    if arg.Some? then arg.value else []
  }

  /** `selectedConfigureProfileFactory`. */
  function Selected(s: Store, profile: string, arg: Option<string>): string {
    TrimmedOr(ArgText(arg), TrimmedOr(profile, TrimmedOr(s.current, DEFAULT)))
  }

  /** `resolveAgentPlanProfileUpdate`: None when neither flag was given. */
  function ResolvePlan(plan: Option<bool>, seat: Option<string>): Result<Option<Plan>, ConfigError> {
    var seatId := TrimSpace(ArgText(seat));
    if plan.None? && seat.None? then Ok(None)
    else if seatId != [] then
      if plan == Some(false) then Err(ConflictingFlags) else Ok(Some(Plan(true, seatId)))
    else Ok(Some(Plan(if plan.Some? then plan.value else true, [])))
  }

  function RegionOf(region: string): string {
    TrimmedOr(region, DEFAULT_REGION)
  }

  // ---------------------------------------------------------------------------
  // One command as a step; `valid` tells the known regions

  function GivenProfile(c: Command): Profile
    requires c.SetKeys?
  {
    Profile(TrimmedOr(c.profile, DEFAULT), "ak", TrimSpace(c.accessKey), TrimSpace(c.secretKey),
            RegionOf(c.region), TrimSpace(c.endpoint))
  }

  function SetKeysStep(s: Store, c: Command, fault: Fault, valid: set<string>): (Store, Outcome)
    requires c.SetKeys?
  {
    var name, region, resolved := TrimmedOr(c.profile, DEFAULT), RegionOf(c.region), ResolvePlan(c.plan, c.seat);
    if TrimSpace(c.accessKey) == [] then (s, Failed(MissingAccessKey))
    else if TrimSpace(c.secretKey) == [] then (s, Failed(MissingSecretKey))
    else if region !in valid then (s, Failed(InvalidRegion))
    else if resolved.Err? then (s, Failed(resolved.error))
    else if fault.BeforeSaving? then (s, Failed(IOFailed))
    else
      var saved := Store(name, s.profiles[name := GivenProfile(c)], s.plans);
      if fault.AfterFirstFile? || resolved.value.None? then (saved, Report(fault))
      else (saved.(plans := saved.plans[name := resolved.value.value]), Report(fault))
  }

  function UseStep(s: Store, c: Command, fault: Fault): (Store, Outcome)
    requires c.Use?
  {
    var name := Selected(s, c.profile, c.arg);
    if name !in s.profiles then (s, Failed(ProfileNotFound))
    else if fault.BeforeSaving? then (s, Failed(IOFailed))
    else (s.(current := name), Report(fault))
  }

  function SetRegionStep(s: Store, c: Command, fault: Fault, valid: set<string>): (Store, Outcome)
    requires c.SetRegion?
  {
    var region, name := TrimSpace(c.region), Selected(s, c.profile, None);
    if region == [] || region !in valid then (s, Failed(InvalidRegion))
    else if name !in s.profiles then (s, Failed(ProfileNotFound))
    else if fault.BeforeSaving? then (s, Failed(IOFailed))
    else (s.(profiles := s.profiles[name := s.profiles[name].(region := region)]), Report(fault))
  }

  function SetPlanStep(s: Store, c: Command, fault: Fault): (Store, Outcome)
    requires c.SetPlan?
  {
    var name, resolved := Selected(s, c.profile, None), ResolvePlan(c.plan, c.seat);
    if c.plan.None? && c.seat.None? then (s, ShowedHelp)
    else if name !in s.profiles then (s, Failed(ProfileNotFound))
    else if resolved.Err? then (s, Failed(resolved.error))
    else if fault.BeforeSaving? then (s, Failed(IOFailed))
    else (s.(plans := s.plans[name := resolved.value.value]), Report(fault))
  }

  /** The name to delete; the interactive choice is one of the listed profiles. */
  function DeleteName(s: Store, c: Command): Option<string>
    requires c.Delete?
  {
    var given := TrimmedOr(ArgText(c.arg), TrimSpace(c.profile));
    if given != [] then Some(given)
    else if c.choice.Some? && c.choice.value in s.profiles then c.choice
    else None
  }

  ghost function DeleteStep(s: Store, c: Command, fault: Fault): (Store, Outcome)
    requires c.Delete?
  {
    var name := DeleteName(s, c);
    if name.None? then (s, Failed(MissingName))
    else if name.value !in s.profiles then (s, Failed(ProfileNotFound))
    else if !c.confirmed then (s, Failed(Canceled))
    else if fault.BeforeSaving? then (s, Failed(IOFailed))
    else
      var left := s.profiles - {name.value};
      var current := if s.current != name.value then s.current
                     else if left == map[] then DEFAULT else Least(left.Keys);
      if fault.AfterFirstFile? then (Store(current, left, s.plans), Report(fault))
      else (Store(current, left, s.plans - {name.value}), Report(fault))
  }

  ghost function Step(s: Store, c: Command, fault: Fault, valid: set<string>): (Store, Outcome) {
    match c
    case SetKeys(_, _, _, _, _, _, _) => SetKeysStep(s, c, fault, valid)
    case Use(_, _) => UseStep(s, c, fault)
    case SetRegion(_, _) => SetRegionStep(s, c, fault, valid)
    case SetPlan(_, _, _) => SetPlanStep(s, c, fault)
    case Delete(_, _, _, _) => DeleteStep(s, c, fault)
  }

  // ---------------------------------------------------------------------------
  // What a command saves, file by file

  /** The one profile name a command works on. */
  function TargetOf(s: Store, c: Command): string {
    match c
    case SetKeys(profile, _, _, _, _, _, _) => TrimmedOr(profile, DEFAULT)
    case Use(profile, arg) => Selected(s, profile, arg)
    case SetRegion(profile, _) => Selected(s, profile, None)
    case SetPlan(profile, _, _) => Selected(s, profile, None)
    case Delete(_, _, _, _) => if DeleteName(s, c).Some? then DeleteName(s, c).value else DEFAULT
  }

  /** The command passes all its checks. */
  predicate Accepted(s: Store, c: Command, valid: set<string>) {
    match c
    case SetKeys(_, accessKey, secretKey, region, _, plan, seat) =>
      TrimSpace(accessKey) != [] && TrimSpace(secretKey) != [] && RegionOf(region) in valid
        && ResolvePlan(plan, seat).Ok?
    case Use(_, _) => TargetOf(s, c) in s.profiles
    case SetRegion(_, region) => TrimSpace(region) != [] && TrimSpace(region) in valid && TargetOf(s, c) in s.profiles
    case SetPlan(_, plan, seat) =>
      (plan.Some? || seat.Some?) && TargetOf(s, c) in s.profiles && ResolvePlan(plan, seat).Ok?
    case Delete(_, _, _, confirmed) => DeleteName(s, c).Some? && TargetOf(s, c) in s.profiles && confirmed
  }

  predicate SavesProfiles(s: Store, call: Call, valid: set<string>) {
    !call.command.SetPlan? && Accepted(s, call.command, valid) && !call.fault.BeforeSaving?
  }

  predicate SavesPlans(s: Store, call: Call, valid: set<string>) {
    && Accepted(s, call.command, valid) && !call.fault.BeforeSaving?
    && match call.command
       case SetKeys(_, _, _, _, _, plan, seat) => (plan.Some? || seat.Some?) && !call.fault.AfterFirstFile?
       case SetPlan(_, _, _) => true
       case Delete(_, _, _, _) => !call.fault.AfterFirstFile?
       case _ => false
  }

  // ---------------------------------------------------------------------------
  // The commands on the files

  class ConfigFiles {
    var current: string
    var profiles: map<string, Profile>
    var plans: map<string, Plan>

    ghost function View(): Store
      reads this
    {
      Store(current, profiles, plans)
    }

    constructor ()
      ensures View() == EMPTY
    {
      current, profiles, plans := DEFAULT, map[], map[];
    }

    method ConfigureSet(c: Command, fault: Fault, valid: set<string>) returns (r: Outcome)
      requires c.SetKeys?
      modifies this
      ensures (View(), r) == Step(old(View()), c, fault, valid)
      ensures r.Succeeded? <==> Accepted(old(View()), c, valid) && fault.NoFault?
      ensures if SavesProfiles(old(View()), Call(c, fault), valid)
        then current == TargetOf(old(View()), c) && profiles == old(profiles)[current := GivenProfile(c)]
        else current == old(current) && profiles == old(profiles)
      ensures r.Succeeded? ==>
        && current == TrimmedOr(c.profile, "default") && current in profiles
        && profiles[current].accessKey == TrimSpace(c.accessKey) && profiles[current].accessKey != []
        && profiles[current].secretKey == TrimSpace(c.secretKey) && profiles[current].secretKey != []
        && profiles[current].endpoint == TrimSpace(c.endpoint)
        && profiles[current].region == TrimmedOr(c.region, "cn-beijing") && profiles[current].region in valid
        && (c.seat.Some? && TrimSpace(c.seat.value) != [] ==>
             current in plans && plans[current] == Plan(true, TrimSpace(c.seat.value)))
      ensures plans == if SavesPlans(old(View()), Call(c, fault), valid)
        then old(plans)[current := ResolvePlan(c.plan, c.seat).value.value] else old(plans)
    {
      var name := TrimmedOr(c.profile, DEFAULT);
      if TrimSpace(c.accessKey) == [] {
        return Failed(MissingAccessKey);
      }
      if TrimSpace(c.secretKey) == [] {
        return Failed(MissingSecretKey);
      }
      var region := RegionOf(c.region);
      if region !in valid {
        return Failed(InvalidRegion);
      }
      var resolved := ResolvePlan(c.plan, c.seat);
      if resolved.Err? {
        return Failed(resolved.error);
      }
      if fault.BeforeSaving? {
        return Failed(IOFailed);
      }
      profiles := profiles[name := Profile(name, "ak", TrimSpace(c.accessKey), TrimSpace(c.secretKey),
                                           region, TrimSpace(c.endpoint))];
      current := name;
      if fault.AfterFirstFile? {
        return Failed(IOFailed);
      }
      if resolved.value.Some? {
        plans := plans[name := resolved.value.value];
      }
      return Report(fault);
    }

    method ConfigureProfile(c: Command, fault: Fault, valid: set<string>) returns (r: Outcome)
      requires c.Use?
      modifies this`current
      ensures (View(), r) == Step(old(View()), c, fault, valid)
      ensures r.Succeeded? <==> TargetOf(old(View()), c) in profiles && fault.NoFault?
      ensures r.Succeeded? && c.arg.Some? && TrimSpace(c.arg.value) != [] ==> current == TrimSpace(c.arg.value)
      ensures r.Succeeded? && TrimSpace(ArgText(c.arg)) == [] && TrimSpace(c.profile) != [] ==>
        current == TrimSpace(c.profile)
      ensures current == if SavesProfiles(old(View()), Call(c, fault), valid)
        then TargetOf(old(View()), c) else old(current)
    {
      var name := TrimmedOr(ArgText(c.arg), TrimmedOr(c.profile, TrimmedOr(current, DEFAULT)));
      if name !in profiles {
        return Failed(ProfileNotFound);
      }
      if fault.BeforeSaving? {
        return Failed(IOFailed);
      }
      current := name;
      return Report(fault);
    }

    /** Changes the region of one profile and nothing else. */
    method ConfigureRegion(c: Command, fault: Fault, valid: set<string>) returns (r: Outcome)
      requires c.SetRegion?
      modifies this`profiles
      ensures (View(), r) == Step(old(View()), c, fault, valid)
      ensures r.Succeeded? <==> Accepted(old(View()), c, valid) && fault.NoFault?
      ensures profiles.Keys == old(profiles).Keys
      ensures forall n :: n in profiles && n != TargetOf(old(View()), c) ==> profiles[n] == old(profiles)[n]
      ensures var n := TargetOf(old(View()), c);
        n in profiles ==>
          && WithoutRegion(profiles[n]) == WithoutRegion(old(profiles)[n])
          && profiles[n].region ==
               if SavesProfiles(old(View()), Call(c, fault), valid)
               then TrimSpace(c.region) else old(profiles)[n].region
    {
      var region := TrimSpace(c.region);
      if region == [] || region !in valid {
        return Failed(InvalidRegion);
      }
      var name := TrimmedOr(c.profile, TrimmedOr(current, DEFAULT));
      if name !in profiles {
        return Failed(ProfileNotFound);
      }
      if fault.BeforeSaving? {
        return Failed(IOFailed);
      }
      var item := profiles[name];
      profiles := profiles[name := item.(region := region)];
      return Report(fault);
    }

    method ConfigureAgentPlan(c: Command, fault: Fault, valid: set<string>) returns (r: Outcome)
      requires c.SetPlan?
      modifies this`plans
      ensures (View(), r) == Step(old(View()), c, fault, valid)
      ensures r.Succeeded? <==> Accepted(old(View()), c, valid) && fault.NoFault?
      ensures r.ShowedHelp? <==> c.plan.None? && c.seat.None?
      ensures plans == if SavesPlans(old(View()), Call(c, fault), valid)
        then old(plans)[TargetOf(old(View()), c) := ResolvePlan(c.plan, c.seat).value.value] else old(plans)
    {
      if c.plan.None? && c.seat.None? {
        return ShowedHelp;
      }
      var name := TrimmedOr(c.profile, TrimmedOr(current, DEFAULT));
      if name !in profiles {
        return Failed(ProfileNotFound);
      }
      var resolved := ResolvePlan(c.plan, c.seat);
      if resolved.Err? {
        return Failed(resolved.error);
      }
      if fault.BeforeSaving? {
        return Failed(IOFailed);
      }
      plans := plans[name := resolved.value.value];
      return Report(fault);
    }

    /** The names of a map, in whatever order the map yields them. */
    static method Names(m: map<string, Profile>) returns (names: seq<string>)
      ensures forall n :: n in names <==> n in m
    {
      names := [];
      var rest := m.Keys;
      while rest != {}
        invariant rest <= m.Keys
        invariant forall n :: n in names <==> n in m && n !in rest
        decreases rest
      {
        var n :| n in rest;
        names := names + [n];
        rest := rest - {n};
      }
    }

    /** The selection once the current profile is gone: the first of the sorted names. */
    static method SelectRemaining(m: map<string, Profile>) returns (current: string)
      ensures current == if m == map[] then DEFAULT else Least(m.Keys)
    {
      var names := Names(m);
      var sorted := Sort(names);
      SortSorts(names);
      current := DEFAULT;
      if |sorted| > 0 {
        SortedFirstIsLeast(names, m.Keys);
        LeastIsUnique(m.Keys, sorted[0], Least(m.Keys));
        current := sorted[0];
      } else {
        assert forall n :: n in m ==> n in names;
        assert m == map[];
      }
    }

    method ConfigureDelete(c: Command, fault: Fault, valid: set<string>) returns (r: Outcome)
      requires c.Delete?
      modifies this
      ensures (View(), r) == Step(old(View()), c, fault, valid)
      ensures r.Succeeded? && c.arg.Some? && TrimSpace(c.arg.value) != [] ==>
        TrimSpace(c.arg.value) in old(profiles) && TrimSpace(c.arg.value) !in profiles
      ensures r.Succeeded? ==>
        && c.confirmed && TargetOf(old(View()), c) in old(profiles)
        && profiles == old(profiles) - {TargetOf(old(View()), c)}
        && plans == old(plans) - {TargetOf(old(View()), c)}
        && (TargetOf(old(View()), c) != old(current) ==> current == old(current))
        && (TargetOf(old(View()), c) == old(current) && profiles != map[] ==> IsLeast(current, profiles.Keys))
    {
      var chosen := DeleteName(Store(current, profiles, plans), c);
      if chosen.None? {
        return Failed(MissingName);
      }
      var name := chosen.value;
      if name !in profiles {
        return Failed(ProfileNotFound);
      }
      if !c.confirmed {
        return Failed(Canceled);
      }
      if fault.BeforeSaving? {
        return Failed(IOFailed);
      }
      profiles := profiles - {name};
      if current == name {
        current := SelectRemaining(profiles);
      }
      if fault.AfterFirstFile? {
        return Failed(IOFailed);
      }
      if name in plans {
        plans := plans - {name};
      }
      assert plans == old(plans) - {name};
      return Report(fault);
    }
  }

  // ---------------------------------------------------------------------------
  // What every sequence of commands keeps

  /** True whatever goes wrong: names are well formed, the current profile exists as soon as any
      does, a seat implies agent plan. */
  predicate ProfilesOk(s: Store) {
    && (forall n :: n in s.profiles ==> n != [] && Trimmed(n) && s.profiles[n].name == n)
    && (if s.profiles == map[] then s.current == DEFAULT else s.current in s.profiles)
    && (forall n :: n in s.plans && s.plans[n].seat != [] ==> s.plans[n].isAgentPlan)
  }

  predicate PlansOk(s: Store) {
    forall n :: n in s.plans ==> n in s.profiles
  }

  lemma ResolvedPlanOk(plan: Option<bool>, seat: Option<string>)
    ensures var r := ResolvePlan(plan, seat);
      r.Ok? && r.value.Some? ==>
        && r.value.value.seat == TrimSpace(ArgText(seat))
        && (r.value.value.isAgentPlan <==> r.value.value.seat != [] || plan != Some(false))
    ensures ResolvePlan(plan, seat) == Ok(None) <==> plan.None? && seat.None?
    ensures ResolvePlan(plan, seat) == Err(ConflictingFlags) <==>
      plan == Some(false) && seat.Some? && TrimSpace(seat.value) != []
  {
  }

  lemma NamesAreTrimmed(s: string)
    ensures TrimmedOr(s, DEFAULT) != [] && Trimmed(TrimmedOr(s, DEFAULT))
  {
    TrimIdempotent(s);
  }

  /** A deletion that was cut after the first of its two files. */
  predicate Interrupted(c: Command, fault: Fault) {
    c.Delete? && fault.AfterFirstFile?
  }

  lemma SetKeysKeepsInvariant(s: Store, c: Command, fault: Fault, valid: set<string>)
    requires ProfilesOk(s) && c.SetKeys?
    ensures ProfilesOk(SetKeysStep(s, c, fault, valid).0)
    ensures PlansOk(s) ==> PlansOk(SetKeysStep(s, c, fault, valid).0)
  {
    NamesAreTrimmed(c.profile);
    ResolvedPlanOk(c.plan, c.seat);
    var t := SetKeysStep(s, c, fault, valid).0;
    if t != s {
      assert TrimmedOr(c.profile, DEFAULT) in t.profiles;
    }
  }

  lemma SetRegionKeepsInvariant(s: Store, c: Command, fault: Fault, valid: set<string>)
    requires ProfilesOk(s) && c.SetRegion?
    ensures ProfilesOk(SetRegionStep(s, c, fault, valid).0)
    ensures PlansOk(s) ==> PlansOk(SetRegionStep(s, c, fault, valid).0)
  {
    var t := SetRegionStep(s, c, fault, valid).0;
    assert t.profiles.Keys == s.profiles.Keys;
    assert t.profiles == map[] ==> s.profiles == map[];
  }

  lemma DeleteKeepsInvariant(s: Store, c: Command, fault: Fault)
    requires ProfilesOk(s) && c.Delete?
    ensures ProfilesOk(DeleteStep(s, c, fault).0)
    ensures PlansOk(s) && !fault.AfterFirstFile? ==> PlansOk(DeleteStep(s, c, fault).0)
  {
    var t := DeleteStep(s, c, fault).0;
    if t.profiles != s.profiles {
      var name := DeleteName(s, c).value;
      assert t.profiles == s.profiles - {name};
      if s.current != name {
        assert s.current in t.profiles;
      } else if t.profiles != map[] {
        assert IsLeast(t.current, t.profiles.Keys);
      }
    }
  }

  lemma StepKeepsInvariant(s: Store, c: Command, fault: Fault, valid: set<string>)
    requires ProfilesOk(s)
    ensures ProfilesOk(Step(s, c, fault, valid).0)
    ensures PlansOk(s) && !Interrupted(c, fault) ==> PlansOk(Step(s, c, fault, valid).0)
  {
    match c
    case SetKeys(_, _, _, _, _, _, _) => SetKeysKeepsInvariant(s, c, fault, valid);
    case Use(_, _) => assert UseStep(s, c, fault).0.profiles == s.profiles;
    case SetRegion(_, _) => SetRegionKeepsInvariant(s, c, fault, valid);
    case SetPlan(_, plan, seat) => ResolvedPlanOk(plan, seat);
    case Delete(_, _, _, _) => DeleteKeepsInvariant(s, c, fault);
  }

  /** Exactly when a command leaves an agent-plan entry without its profile. */
  lemma PlansKeptExactly(s: Store, c: Command, fault: Fault, valid: set<string>)
    requires ProfilesOk(s) && PlansOk(s)
    ensures PlansOk(Step(s, c, fault, valid).0) <==>
      !(Interrupted(c, fault) && Accepted(s, c, valid) && TargetOf(s, c) in s.plans)
  {
    StepKeepsInvariant(s, c, fault, valid);
  }

  // ---------------------------------------------------------------------------
  // Which errors leave the files alone

  /** Whatever the command and the files: if it reports an error, it changed nothing. */
  ghost predicate ErrorsChangeNothing(fault: Fault) {
    forall s, c, valid :: Step(s, c, fault, valid).1.Failed? ==> Step(s, c, fault, valid).0 == s
  }

  lemma ChangesOnlyWhatIsSaved(s: Store, c: Command, fault: Fault, valid: set<string>)
    requires !SavesProfiles(s, Call(c, fault), valid) && !SavesPlans(s, Call(c, fault), valid)
    ensures Step(s, c, fault, valid).0 == s && !Step(s, c, fault, valid).1.Succeeded?
  {
    match c
    case SetKeys(_, _, _, _, _, _, _) => assert SetKeysStep(s, c, fault, valid).0 == s;
    case Use(_, _) => assert UseStep(s, c, fault).0 == s;
    case SetRegion(_, _) => assert SetRegionStep(s, c, fault, valid).0 == s;
    case SetPlan(_, _, _) => assert SetPlanStep(s, c, fault).0 == s;
    case Delete(_, _, _, _) => assert DeleteStep(s, c, fault).0 == s;
  }

  /** An accepted command reports an error exactly when a fault strikes. */
  lemma AcceptedReports(s: Store, c: Command, fault: Fault, valid: set<string>)
    requires Accepted(s, c, valid)
    ensures Step(s, c, fault, valid).1 == Report(fault)
  {
    match c
    case SetKeys(_, _, _, _, _, _, _) => assert SetKeysStep(s, c, fault, valid).1 == Report(fault);
    case Use(_, _) => assert UseStep(s, c, fault).1 == Report(fault);
    case SetRegion(_, _) => assert SetRegionStep(s, c, fault, valid).1 == Report(fault);
    case SetPlan(_, _, _) => assert SetPlanStep(s, c, fault).1 == Report(fault);
    case Delete(_, _, _, _) => assert DeleteStep(s, c, fault).1 == Report(fault);
  }

  /** An error means that nothing changed if and only if it is a refusal, or an input or output
      error before the first rename. After it, a command can have switched the profile and report
      an error. */
  lemma ErrorsChangeNothingExactly(fault: Fault)
    ensures ErrorsChangeNothing(fault) <==> fault.NoFault? || fault.BeforeSaving?
  {
    if fault.NoFault? || fault.BeforeSaving? {
      forall s, c, valid | Step(s, c, fault, valid).1.Failed? ensures Step(s, c, fault, valid).0 == s {
        if Accepted(s, c, valid) { AcceptedReports(s, c, fault, valid); }
        ChangesOnlyWhatIsSaved(s, c, fault, valid);
      }
    } else {
      var one := Profile("dev", "ak", "a", "s", DEFAULT_REGION, []);
      var s := Store("old", map["dev" := one, "old" := one.(name := "old")], map[]);
      var c := Use([], Some("dev"));
      TrimOfTrimmed("dev");
      assert Step(s, c, fault, {}) == (s.(current := "dev"), Failed(IOFailed));
    }
  }

  // ---------------------------------------------------------------------------
  // Where the faults come from: the operations of a save

  /** What goes into one of the two files. */
  datatype Contents =
    | ProfileFile(current: string, profiles: map<string, Profile>)
    | PlanFile(plans: map<string, Plan>)

  /** The operations of `SaveFileConfig` and `SaveSupabaseFileConfig`, and the final message. */
  datatype Op = MakeDir | ChmodDir | CreateTemp | WriteTemp(contents: Contents) | ChmodTemp | CloseTemp
    | Rename | ChmodFile | Print

  /** The files and the temporary file of the save under way; an operation that fails changes
      neither file. */
  datatype Disk = Disk(store: Store, temp: Option<Contents>)

  function Put(s: Store, contents: Contents): Store {
    match contents
    case ProfileFile(current, profiles) => Store(current, profiles, s.plans)
    case PlanFile(plans) => s.(plans := plans)
  }

  function Perform(d: Disk, op: Op): Disk {
    match op
    case CreateTemp => d.(temp := None)
    case WriteTemp(contents) => d.(temp := Some(contents))
    case Rename => if d.temp.Some? then Disk(Put(d.store, d.temp.value), None) else d
    case _ => d
  }

  function PerformAll(d: Disk, ops: seq<Op>): Disk {
    if ops == [] then d else Perform(PerformAll(d, ops[..|ops| - 1]), ops[|ops| - 1])
  }

  function SaveOps(contents: Contents): seq<Op> {
    (if contents.PlanFile? then [MakeDir, ChmodDir] else [MakeDir])
      + [CreateTemp, WriteTemp(contents), ChmodTemp, CloseTemp, Rename, ChmodFile]
  }

  /** How many operations of a save leave the file as it was. */
  function HarmlessOps(contents: Contents): nat {
    if contents.PlanFile? then 6 else 5
  }

  /** The files an accepted command saves, in order. */
  ghost function Saves(s: Store, c: Command, valid: set<string>): (r: seq<Contents>)
    requires Accepted(s, c, valid)
    ensures 1 <= |r| <= 2 && (|r| == 2 ==> r[0].ProfileFile? && r[1].PlanFile?)
  {
    var n := TargetOf(s, c);
    match c
    case SetKeys(_, _, _, _, _, plan, seat) =>
      [ProfileFile(n, s.profiles[n := GivenProfile(c)])]
        + if plan.None? && seat.None? then [] else [PlanFile(s.plans[n := ResolvePlan(plan, seat).value.value])]
    case Use(_, _) => [ProfileFile(n, s.profiles)]
    case SetRegion(_, region) =>
      [ProfileFile(s.current, s.profiles[n := s.profiles[n].(region := TrimSpace(region))])]
    case SetPlan(_, plan, seat) => [PlanFile(s.plans[n := ResolvePlan(plan, seat).value.value])]
    case Delete(_, _, _, _) =>
      var left := s.profiles - {n};
      var current := if s.current != n then s.current else if left == map[] then DEFAULT else Least(left.Keys);
      [ProfileFile(current, left)] + if n in s.plans then [PlanFile(s.plans - {n})] else []
  }

  function OpsOf(saves: seq<Contents>): seq<Op> {
    if saves == [] then [Print] else SaveOps(saves[0]) + OpsOf(saves[1..])
  }

  /** Every operation of a command that passed its checks. */
  ghost function OpsOfCommand(s: Store, c: Command, valid: set<string>): seq<Op>
    requires Accepted(s, c, valid)
  {
    OpsOf(Saves(s, c, valid))
  }

  /** The fault that befalls a command after its first `n` operations. */
  function FaultAfter(saves: seq<Contents>, n: nat): Fault
    requires 1 <= |saves| <= 2
  {
    if n >= |OpsOf(saves)| then NoFault
    else if n <= HarmlessOps(saves[0]) then BeforeSaving
    else if |saves| == 2 && n <= |SaveOps(saves[0])| + HarmlessOps(saves[1]) then AfterFirstFile
    else AfterSaving
  }

  lemma PerformOne(d: Disk, ops: seq<Op>, n: nat)
    requires n < |ops|
    ensures PerformAll(d, ops[..n + 1]) == Perform(PerformAll(d, ops[..n]), ops[n])
  {
    assert ops[..n + 1][..n] == ops[..n];
  }

  /** Atomicity of one save: cut after any number of its operations, the file holds either what it
      held or the whole of the new contents, the latter from the rename on. */
  lemma SaveIsAtomic(d: Disk, contents: Contents, n: nat)
    requires n <= |SaveOps(contents)|
    ensures PerformAll(d, SaveOps(contents)[..n]).store
      == if n <= HarmlessOps(contents) then d.store else Put(d.store, contents)
  {
    var ops, k := SaveOps(contents), HarmlessOps(contents) - 4;
    BeforeTemp(d, contents, if n <= k then n else k);
    if n > k { TempFollows(d, contents, n - k); }
  }

  lemma BeforeTemp(d: Disk, contents: Contents, n: nat)
    requires n <= HarmlessOps(contents) - 4
    ensures PerformAll(d, SaveOps(contents)[..n]) == d
  {
    var ops := SaveOps(contents);
    if n >= 1 { PerformOne(d, ops, 0); }
    if n >= 2 { PerformOne(d, ops, 1); }
  }

  lemma TempFollows(d: Disk, contents: Contents, m: nat)
    requires 0 < m <= 6
    ensures PerformAll(d, SaveOps(contents)[..HarmlessOps(contents) - 4 + m]) ==
      if m == 1 then d.(temp := None)
      else if m <= 4 then d.(temp := Some(contents))
      else Disk(Put(d.store, contents), None)
  {
    var ops, k := SaveOps(contents), HarmlessOps(contents) - 4;
    BeforeTemp(d, contents, k);
    for i := 0 to m
      invariant PerformAll(d, ops[..k + i]) ==
        if i == 0 then d
        else if i == 1 then d.(temp := None)
        else if i <= 4 then d.(temp := Some(contents))
        else Disk(Put(d.store, contents), None)
    {
      PerformOne(d, ops, k + i);
    }
  }

  lemma {:induction false} PerformConcat(d: Disk, a: seq<Op>, b: seq<Op>)
    ensures PerformAll(d, a + b) == PerformAll(PerformAll(d, a), b)
  {
    if b == [] {
      assert a + b == a;
    } else {
      assert (a + b)[..|a + b| - 1] == a + b[..|b| - 1];
      PerformConcat(d, a, b[..|b| - 1]);
    }
  }

  /** The store once the first `n` operations of some saves are done. */
  function StoreAfter(s: Store, saves: seq<Contents>, n: nat): Store
    requires n <= |OpsOf(saves)|
  {
    PerformAll(Disk(s, None), OpsOf(saves)[..n]).store
  }

  lemma LastSaveCut(d: Disk, last: Contents, n: nat)
    requires n <= |OpsOf([last])|
    ensures PerformAll(d, OpsOf([last])[..n]).store == if n <= HarmlessOps(last) then d.store else Put(d.store, last)
  {
    var ops := OpsOf([last]);
    assert ops == SaveOps(last) + [Print];
    if n <= |SaveOps(last)| {
      assert ops[..n] == SaveOps(last)[..n];
      SaveIsAtomic(d, last, n);
    } else {
      assert ops[..|SaveOps(last)|] == SaveOps(last)[..|SaveOps(last)|];
      SaveIsAtomic(d, last, |SaveOps(last)|);
      PerformOne(d, ops, |SaveOps(last)|);
    }
  }

  /** Cut after any operation, the files are those after the saves whose rename came about. */
  lemma SavesCut(s: Store, saves: seq<Contents>, n: nat)
    requires 1 <= |saves| <= 2 && n <= |OpsOf(saves)|
    ensures StoreAfter(s, saves, n) ==
      match FaultAfter(saves, n)
      case BeforeSaving => s
      case AfterFirstFile => Put(s, saves[0])
      case _ => if |saves| == 1 then Put(s, saves[0]) else Put(Put(s, saves[0]), saves[1])
  {
    var d := Disk(s, None);
    if |saves| == 1 {
      assert saves == [saves[0]];
      LastSaveCut(d, saves[0], n);
    } else {
      assert saves[1..] == [saves[1]];
      TwoSavesCut(d, saves[0], saves[1], OpsOf(saves), n);
    }
  }

  lemma TwoSavesCut(d: Disk, one: Contents, two: Contents, ops: seq<Op>, n: nat)
    requires ops == SaveOps(one) + OpsOf([two]) && n <= |ops|
    ensures PerformAll(d, ops[..n]).store ==
      if n <= HarmlessOps(one) then d.store
      else if n <= |SaveOps(one)| + HarmlessOps(two) then Put(d.store, one)
      else Put(Put(d.store, one), two)
  {
    var first, more := SaveOps(one), OpsOf([two]);
    if n <= |first| {
      assert ops[..n] == first[..n];
      SaveIsAtomic(d, one, n);
    } else {
      assert ops[..n] == first + more[..n - |first|] && first[..|first|] == first;
      SaveIsAtomic(d, one, |first|);
      PerformConcat(d, first, more[..n - |first|]);
      LastSaveCut(PerformAll(d, first), two, n - |first|);
    }
  }

  lemma SavesMakeTheStep(s: Store, c: Command, fault: Fault, valid: set<string>)
    requires Accepted(s, c, valid) && (|Saves(s, c, valid)| == 1 ==> !fault.AfterFirstFile?)
    ensures var saves := Saves(s, c, valid);
      Step(s, c, fault, valid).0 ==
      match fault
      case BeforeSaving => s
      case AfterFirstFile => Put(s, saves[0])
      case _ => if |saves| == 1 then Put(s, saves[0]) else Put(Put(s, saves[0]), saves[1])
  {
    match c
    case SetKeys(_, _, _, _, _, plan, seat) => assert plan.None? && seat.None? <==> ResolvePlan(plan, seat) == Ok(None);
    case Delete(_, _, _, _) => assert TargetOf(s, c) !in s.plans ==> s.plans - {TargetOf(s, c)} == s.plans;
    case _ =>
  }

  /** The commands are made of these operations: cut after any number of them, an accepted command
      leaves the files of the step under the fault that this cut amounts to, and it reports
      success exactly when nothing was cut off. */
  lemma CutIsFault(s: Store, c: Command, valid: set<string>, n: nat)
    requires Accepted(s, c, valid) && n <= |OpsOfCommand(s, c, valid)|
    ensures var (t, r) := Step(s, c, FaultAfter(Saves(s, c, valid), n), valid);
      t == StoreAfter(s, Saves(s, c, valid), n) && (r.Succeeded? <==> n == |OpsOfCommand(s, c, valid)|)
  {
    var saves := Saves(s, c, valid);
    SavesCut(s, saves, n);
    SavesMakeTheStep(s, c, FaultAfter(saves, n), valid);
    AcceptedReports(s, c, FaultAfter(saves, n), valid);
  }

  /** Cut after `n` operations, no accepted command ever changed a file. */
  ghost predicate CutsChangeNothing(n: nat) {
    forall s, c, valid | Accepted(s, c, valid) && n < |OpsOfCommand(s, c, valid)| ::
      StoreAfter(s, Saves(s, c, valid), n) == s
  }

  /** The operations before the rename of a profile file, and those of the longest command. */
  const HARMLESS: nat := 5
  const LONGEST: nat := 16

  /** A failure leaves the files as they were, whatever the command, if and only if it strikes
      before the rename, with at most directory, temporary file, write, chmod and close done (or
      after more operations than any command has). From the rename on, the chmod that follows it
      included, some command has changed a file when it reports the failure. */
  lemma CutsChangeNothingExactly(n: nat)
    ensures CutsChangeNothing(n) <==> n <= HARMLESS || n >= LONGEST
  {
    if n <= HARMLESS || n >= LONGEST {
      forall s, c, valid | Accepted(s, c, valid) && n < |OpsOfCommand(s, c, valid)|
        ensures StoreAfter(s, Saves(s, c, valid), n) == s
      {
        OpsCount(Saves(s, c, valid));
        SavesCut(s, Saves(s, c, valid), n);
      }
    } else {
      var s, c := CutWitness(n);
      assert StoreAfter(s, Saves(s, c, {}), n) != s;
    }
  }

  lemma OpsCount(saves: seq<Contents>)
    requires 1 <= |saves| <= 2 && (|saves| == 2 ==> saves[0].ProfileFile? && saves[1].PlanFile?)
    ensures |OpsOf(saves)| == if |saves| == 2 then LONGEST else if saves[0].PlanFile? then 9 else 8
  {
    if |saves| == 2 { assert saves[1..][1..] == []; } else { assert saves[1..] == []; }
  }

  /** A deletion of the current one of two profiles, agent-plan entry included. */
  lemma CutWitness(n: nat) returns (s: Store, c: Command)
    requires HARMLESS < n < LONGEST
    ensures Accepted(s, c, {}) && n < |OpsOfCommand(s, c, {})| && StoreAfter(s, Saves(s, c, {}), n) != s
  {
    var one := Profile("dev", "ak", "a", "s", DEFAULT_REGION, []);
    s := Store("dev", map["dev" := one], map["dev" := Plan(true, [])]);
    c := Delete([], Some("dev"), None, true);
    TrimOfTrimmed("dev");
    assert TargetOf(s, c) == "dev";
    OpsCount(Saves(s, c, {}));
    SavesCut(s, Saves(s, c, {}), n);
    assert "dev" in s.profiles && "dev" !in (s.profiles - {"dev"});
  }

  // ---------------------------------------------------------------------------
  // Whole runs: the last command to save something decides it

  ghost function Run(s: Store, calls: seq<Call>, valid: set<string>): Store {
    if calls == [] then s
    else Step(Run(s, calls[..|calls| - 1], valid), calls[|calls| - 1].command, calls[|calls| - 1].fault, valid).0
  }

  /** The things a command may decide: whether a profile exists and with which keys, its region,
      its agent-plan entry, and which profile is the current one. */
  datatype Matter = Keys | Region | AgentPlan | Selection

  /** The call saves something new in this matter; `n` is the profile in question. */
  predicate Decides(m: Matter, s: Store, call: Call, valid: set<string>, n: string) {
    var c := call.command;
    match m
    case Keys => SavesProfiles(s, call, valid) && (c.SetKeys? || c.Delete?) && TargetOf(s, c) == n
    case Region => SavesProfiles(s, call, valid) && (c.SetKeys? || c.SetRegion?) && TargetOf(s, c) == n
    case AgentPlan => SavesPlans(s, call, valid) && TargetOf(s, c) == n
    case Selection =>
      SavesProfiles(s, call, valid) && (c.SetKeys? || c.Use? || (c.Delete? && TargetOf(s, c) == s.current))
  }

  /** The last call of a run from the empty store that decided a matter. */
  ghost function LastOn(m: Matter, calls: seq<Call>, valid: set<string>, n: string): (r: Option<nat>)
    ensures r.Some? ==> r.value < |calls|
  {
    if calls == [] then None
    else
      var init, last := calls[..|calls| - 1], calls[|calls| - 1];
      if Decides(m, Run(EMPTY, init, valid), last, valid, n) then Some(|init|) else LastOn(m, init, valid, n)
  }

  ghost predicate DecidedAt(m: Matter, calls: seq<Call>, valid: set<string>, n: string, i: nat)
    requires i < |calls|
  {
    Decides(m, Run(EMPTY, calls[..i], valid), calls[i], valid, n)
  }

  lemma DecidedAtPrefix(m: Matter, calls: seq<Call>, valid: set<string>, n: string, i: nat)
    requires i < |calls| - 1
    ensures DecidedAt(m, calls, valid, n, i) <==> DecidedAt(m, calls[..|calls| - 1], valid, n, i)
  {
    assert calls[..|calls| - 1][..i] == calls[..i];
  }

  lemma {:induction false} LastOnDecides(m: Matter, calls: seq<Call>, valid: set<string>, n: string)
    requires LastOn(m, calls, valid, n).Some?
    ensures DecidedAt(m, calls, valid, n, LastOn(m, calls, valid, n).value)
  {
    var init := calls[..|calls| - 1];
    var i := LastOn(m, calls, valid, n).value;
    if i < |init| {
      LastOnDecides(m, init, valid, n);
      DecidedAtPrefix(m, calls, valid, n, i);
    }
  }

  lemma {:induction false} NothingDecidesAfter(m: Matter, calls: seq<Call>, valid: set<string>, n: string, j: nat)
    requires j < |calls| && DecidedAt(m, calls, valid, n, j)
    ensures LastOn(m, calls, valid, n).Some? && j <= LastOn(m, calls, valid, n).value
  {
    if j < |calls| - 1 {
      DecidedAtPrefix(m, calls, valid, n, j);
      NothingDecidesAfter(m, calls[..|calls| - 1], valid, n, j);
    }
  }

  /** A profile without its region. */
  function WithoutRegion(p: Profile): Profile {
    p.(region := [])
  }

  /** How a profile's existence, keys and region follow from the calls that decided them. */
  ghost predicate ProfileFollows(t: Store, keys: Option<Command>, region: Option<Command>, n: string) {
    && (n in t.profiles <==> keys.Some? && keys.value.SetKeys?)
    && (n in t.profiles ==>
         && t.profiles[n].name == n && t.profiles[n].mode == "ak"
         && t.profiles[n].accessKey == TrimSpace(keys.value.accessKey)
         && t.profiles[n].secretKey == TrimSpace(keys.value.secretKey)
         && t.profiles[n].endpoint == TrimSpace(keys.value.endpoint)
         && region.Some? && (region.value.SetKeys? || region.value.SetRegion?)
         && t.profiles[n].region ==
              if region.value.SetKeys? && TrimSpace(region.value.region) == [] then "cn-beijing"
              else TrimSpace(region.value.region))
  }

  predicate PlanFollows(t: Store, plan: Option<Command>, n: string) {
    && (n in t.plans <==> plan.Some? && !plan.value.Delete?)
    && (n in t.plans ==>
         && (plan.value.SetKeys? || plan.value.SetPlan?)
         && t.plans[n].seat == TrimSpace(ArgText(plan.value.seat))
         && (t.plans[n].isAgentPlan <==> t.plans[n].seat != [] || plan.value.plan != Some(false)))
  }

  ghost function CommandOn(m: Matter, calls: seq<Call>, valid: set<string>, n: string): Option<Command> {
    var i := LastOn(m, calls, valid, n);
    if i.None? then None else Some(calls[i.value].command)
  }

  lemma CommandOnStep(m: Matter, calls: seq<Call>, valid: set<string>, n: string)
    requires calls != []
    ensures var init, last := calls[..|calls| - 1], calls[|calls| - 1];
      CommandOn(m, calls, valid, n) ==
        if Decides(m, Run(EMPTY, init, valid), last, valid, n) then Some(last.command)
        else CommandOn(m, init, valid, n)
  {
  }

  /** One step in each matter: decided by the call, or as before. */
  lemma StepFollows(s: Store, call: Call, valid: set<string>, n: string,
                    keys: Option<Command>, region: Option<Command>, plan: Option<Command>)
    requires ProfileFollows(s, keys, region, n) && PlanFollows(s, plan, n)
    ensures var c, t := call.command, Step(s, call.command, call.fault, valid).0;
      && ProfileFollows(t, if Decides(Keys, s, call, valid, n) then Some(c) else keys,
                        if Decides(Region, s, call, valid, n) then Some(c) else region, n)
      && PlanFollows(t, if Decides(AgentPlan, s, call, valid, n) then Some(c) else plan, n)
  {
    var c, fault := call.command, call.fault;
    if !SavesProfiles(s, call, valid) && !SavesPlans(s, call, valid) {
      ChangesOnlyWhatIsSaved(s, c, fault, valid);
    } else {
      match c
      case SetKeys(_, _, _, _, _, _, _) => SetKeysSaves(s, c, fault, valid);
      case Use(_, _) => assert UseStep(s, c, fault).0 == s.(current := TargetOf(s, c));
      case SetRegion(_, region) =>
        assert SetRegionStep(s, c, fault, valid).0
            == s.(profiles := s.profiles[TargetOf(s, c) := s.profiles[TargetOf(s, c)].(region := TrimSpace(region))]);
      case SetPlan(_, plan, seat) =>
        assert SetPlanStep(s, c, fault).0
          == s.(plans := s.plans[TargetOf(s, c) := ResolvePlan(plan, seat).value.value]);
      case Delete(_, _, _, _) => DeleteSaves(s, c, fault, valid);
    }
  }

  lemma SetKeysSaves(s: Store, c: Command, fault: Fault, valid: set<string>)
    requires c.SetKeys? && SavesProfiles(s, Call(c, fault), valid)
    ensures var t, n := SetKeysStep(s, c, fault, valid).0, TargetOf(s, c);
      && t.current == n && t.profiles == s.profiles[n := GivenProfile(c)]
      && (SavesPlans(s, Call(c, fault), valid) ==>
           ResolvePlan(c.plan, c.seat).value.Some? && t.plans == s.plans[n := ResolvePlan(c.plan, c.seat).value.value])
      && (!SavesPlans(s, Call(c, fault), valid) ==> t.plans == s.plans)
  {
  }

  lemma DeleteSaves(s: Store, c: Command, fault: Fault, valid: set<string>)
    requires c.Delete? && SavesProfiles(s, Call(c, fault), valid)
    ensures var t, n := DeleteStep(s, c, fault).0, TargetOf(s, c);
      && t.profiles == s.profiles - {n}
      && t.plans == (if SavesPlans(s, Call(c, fault), valid) then s.plans - {n} else s.plans)
      && (n != s.current ==> t.current == s.current)
      && (n == s.current ==> t.current == if t.profiles == map[] then DEFAULT else Least(t.profiles.Keys))
  {
  }

  /** After any run, however many of its commands are refused, fail or are cut short: a profile
      exists exactly when the last command that saved or deleted it saved it, with the keys given
      there; its region is the one last saved for it; and its agent-plan entry is the one last
      saved for it. No other command leaves a trace in it. */
  lemma {:induction false} LastCommandDecides(calls: seq<Call>, valid: set<string>, n: string)
    ensures ProfileFollows(Run(EMPTY, calls, valid), CommandOn(Keys, calls, valid, n),
                           CommandOn(Region, calls, valid, n), n)
    ensures PlanFollows(Run(EMPTY, calls, valid), CommandOn(AgentPlan, calls, valid, n), n)
  {
    if calls != [] {
      var init, last := calls[..|calls| - 1], calls[|calls| - 1];
      LastCommandDecides(init, valid, n);
      CommandOnStep(Keys, calls, valid, n);
      CommandOnStep(Region, calls, valid, n);
      CommandOnStep(AgentPlan, calls, valid, n);
      StepFollows(Run(EMPTY, init, valid), last, valid, n, CommandOn(Keys, init, valid, n),
                  CommandOn(Region, init, valid, n), CommandOn(AgentPlan, init, valid, n));
    }
  }

  lemma StepSelects(s: Store, call: Call, valid: set<string>)
    ensures var c, t := call.command, Step(s, call.command, call.fault, valid).0;
      if !Decides(Selection, s, call, valid, []) then t.current == s.current
      else if !c.Delete? then t.current == TargetOf(s, c)
      else t.current == if t.profiles == map[] then DEFAULT else Least(t.profiles.Keys)
  {
    var c, fault := call.command, call.fault;
    if !SavesProfiles(s, call, valid) && !SavesPlans(s, call, valid) {
      ChangesOnlyWhatIsSaved(s, c, fault, valid);
    } else {
      match c
      case SetKeys(_, _, _, _, _, _, _) => SetKeysSaves(s, c, fault, valid);
      case Use(_, _) => assert UseStep(s, c, fault).0 == s.(current := TargetOf(s, c));
      case SetRegion(_, _) => assert SetRegionStep(s, c, fault, valid).0.current == s.current;
      case SetPlan(_, _, _) => assert SetPlanStep(s, c, fault).0.current == s.current;
      case Delete(_, _, _, _) => DeleteSaves(s, c, fault, valid);
    }
  }

  /** The current profile that the call at `i` selects. */
  ghost predicate SelectedAt(calls: seq<Call>, valid: set<string>, i: nat, current: string)
    requires i < |calls|
  {
    var before, after := Run(EMPTY, calls[..i], valid), Run(EMPTY, calls[..i + 1], valid);
    var c := calls[i].command;
    if !c.Delete? then current == TargetOf(before, c)
    else current == if after.profiles == map[] then DEFAULT else Least(after.profiles.Keys)
  }

  lemma SelectedAtPrefix(calls: seq<Call>, valid: set<string>, i: nat, current: string)
    requires i < |calls| - 1
    ensures SelectedAt(calls, valid, i, current) <==> SelectedAt(calls[..|calls| - 1], valid, i, current)
  {
    assert calls[..|calls| - 1][..i] == calls[..i] && calls[..|calls| - 1][..i + 1] == calls[..i + 1];
  }

  lemma SelectedLast(calls: seq<Call>, valid: set<string>)
    requires calls != [] && DecidedAt(Selection, calls, valid, [], |calls| - 1)
    ensures SelectedAt(calls, valid, |calls| - 1, Run(EMPTY, calls, valid).current)
  {
    StepSelects(Run(EMPTY, calls[..|calls| - 1], valid), calls[|calls| - 1], valid);
    assert calls[..|calls|] == calls;
  }

  /** After any run the current profile is the one the last selecting command named, or, when that
      deleted the current one, the least name it left. */
  lemma {:induction false} LastSelectionDecides(calls: seq<Call>, valid: set<string>)
    ensures LastOn(Selection, calls, valid, []).None? ==> Run(EMPTY, calls, valid).current == DEFAULT
    ensures LastOn(Selection, calls, valid, []).Some? ==>
      SelectedAt(calls, valid, LastOn(Selection, calls, valid, []).value, Run(EMPTY, calls, valid).current)
  {
    if calls != [] {
      var init, last := calls[..|calls| - 1], calls[|calls| - 1];
      if DecidedAt(Selection, calls, valid, [], |init|) {
        SelectedLast(calls, valid);
      } else {
        LastSelectionDecides(init, valid);
        StepSelects(Run(EMPTY, init, valid), last, valid);
        var i := LastOn(Selection, init, valid, []);
        if i.Some? { SelectedAtPrefix(calls, valid, i.value, Run(EMPTY, init, valid).current); }
      }
    }
  }

  /** The last command that saved or deleted the profile was a deletion of a profile with an
      agent-plan entry, cut between its two files. */
  ghost predicate DeletionWasCut(calls: seq<Call>, valid: set<string>, n: string) {
    var i := LastOn(Keys, calls, valid, n);
    i.Some? && Interrupted(calls[i.value].command, calls[i.value].fault)
      && n in Run(EMPTY, calls[..i.value], valid).plans
  }

  lemma {:induction false} OrphanExactly(calls: seq<Call>, valid: set<string>, n: string)
    ensures var t := Run(EMPTY, calls, valid);
      n in t.plans && n !in t.profiles <==> DeletionWasCut(calls, valid, n)
  {
    if calls != [] {
      var init, last := calls[..|calls| - 1], calls[|calls| - 1];
      OrphanExactly(init, valid, n);
      OrphanStep(Run(EMPTY, init, valid), last, valid, n);
      assert calls[..|init|] == init;
      var i := LastOn(Keys, init, valid, n);
      if i.Some? { assert init[..i.value] == calls[..i.value]; }
    }
  }

  lemma OrphanStep(s: Store, call: Call, valid: set<string>, n: string)
    ensures var t := Step(s, call.command, call.fault, valid).0;
      if Decides(Keys, s, call, valid, n)
      then n in t.plans && n !in t.profiles <==> Interrupted(call.command, call.fault) && n in s.plans
      else n in t.plans && n !in t.profiles <==> n in s.plans && n !in s.profiles
  {
    var c, fault := call.command, call.fault;
    if !SavesProfiles(s, call, valid) && !SavesPlans(s, call, valid) {
      ChangesOnlyWhatIsSaved(s, c, fault, valid);
    } else {
      match c
      case SetKeys(_, _, _, _, _, _, _) => SetKeysSaves(s, c, fault, valid);
      case Use(_, _) => assert UseStep(s, c, fault).0 == s.(current := TargetOf(s, c));
      case SetRegion(_, _) => assert SetRegionStep(s, c, fault, valid).0.profiles.Keys == s.profiles.Keys;
      case SetPlan(_, _, _) => assert SetPlanStep(s, c, fault).0.profiles == s.profiles;
      case Delete(_, _, _, _) => DeleteSaves(s, c, fault, valid);
    }
  }

  /** From the empty store, after any sequence of commands however many fail: a non-empty profile
      map has the current profile as a key and a seat implies agent plan; and every agent-plan
      entry belongs to a profile if and only if no profile with one was last deleted by a command
      cut between its two files. */
  lemma {:induction false} ReachableStores(calls: seq<Call>, valid: set<string>)
    ensures ProfilesOk(Run(EMPTY, calls, valid))
    ensures PlansOk(Run(EMPTY, calls, valid)) <==> forall n :: !DeletionWasCut(calls, valid, n)
  {
    if calls != [] {
      var init, last := calls[..|calls| - 1], calls[|calls| - 1];
      ReachableStores(init, valid);
      StepKeepsInvariant(Run(EMPTY, init, valid), last.command, last.fault, valid);
    }
    forall n { OrphanExactly(calls, valid, n); }
  }

  /** Such a cut occurs, and the leftover entry is not harmless: a profile created later under the
      same name inherits it. */
  lemma InterruptedDeleteLeavesPlan(valid: set<string>)
    requires DEFAULT_REGION in valid
    ensures var set1 := SetKeys("dev", "ak", "sk", "", "", Some(true), None);
      var set2 := SetKeys("dev", "ak", "sk", "", "", None, None);
      var cut := Delete("dev", None, None, true);
      var after := Step(Step(EMPTY, set1, NoFault, valid).0, cut, AfterFirstFile, valid).0;
      && after.profiles == map[] && !PlansOk(after)
      && Step(after, set2, NoFault, valid).0.plans == map["dev" := Plan(true, [])]
  {
    TrimOfTrimmed("dev");
    TrimOfTrimmed("ak");
    TrimOfTrimmed("sk");
    TrimOfTrimmed("");
    var set1 := SetKeys("dev", "ak", "sk", "", "", Some(true), None);
    var one := Step(EMPTY, set1, NoFault, valid).0;
    assert one.plans == map["dev" := Plan(true, [])] && "dev" in one.profiles && one.current == "dev";
    assert one.profiles - {"dev"} == map[];
    assert DeleteName(one, Delete("dev", None, None, true)) == Some("dev");
    var after := Step(one, Delete("dev", None, None, true), AfterFirstFile, valid).0;
    assert "dev" in after.plans && "dev" !in after.profiles;
  }
}
