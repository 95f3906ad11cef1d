/** The MCP tool registry: catalog compaction, policy, registration and alias rewriting.
    Source: internal/mcp/tools.go, internal/mcp/policy.go, internal/mcp/aliases.go. */
module ToolRegistry {
  import opened Wrappers
  import opened Text

  datatype Tool = Tool(name: string, feature: string, mutating: bool, aliases: seq<string>)

  datatype Policy = Policy(features: set<string>, readOnly: bool, workspaceRef: string, disabled: set<string>)

  const ACCOUNT := "account"
  const CALL_TOOL := "tools/call"

  /** The official feature groups, sorted: also the default selection. */
  const FEATURES: seq<string> :=
    ["account", "ai-gateway", "auth", "branching", "compute", "database", "development", "functions",
     "pages", "sandbox", "storage"]

  // ---------------------------------------------------------------------------
  // The policy

  /** `policy.allows`. */
  predicate Allows(p: Policy, t: Tool) {
    if t.name in p.disabled then false
    else if p.readOnly && t.mutating then false
    else if t.feature == [] then true
    else if t.feature == ACCOUNT && p.workspaceRef != [] then false
    else t.feature in p.features
  }

  function TrimmedSet(values: seq<string>): set<string> {
    set v | v in values && TrimSpace(v) != [] :: TrimSpace(v)
  }

  datatype Options = Options(readOnly: bool, features: seq<string>, disabledTools: seq<string>, workspaceRef: string)

  function PolicyOf(o: Options): Policy {
    Policy(TrimmedSet(if o.features == [] then FEATURES else o.features), o.readOnly,
           TrimSpace(o.workspaceRef), TrimmedSet(o.disabledTools))
  }

  /** The loop that `newPolicy` runs over features and over disabled tools. */
  method CollectTrimmed(values: seq<string>) returns (r: set<string>)
    ensures r == TrimmedSet(values)
  {
    r := {};
    for i := 0 to |values|
      invariant r == TrimmedSet(values[..i])
    {
      var v := TrimSpace(values[i]);
      assert values[..i + 1] == values[..i] + [values[i]];
      if v != [] {
        r := r + {v};
      }
    }
    assert values[..|values|] == values;
  }

  /** `newPolicy`. */
  method NewPolicy(o: Options) returns (p: Policy)
    ensures p == PolicyOf(o)
  {
    var features := o.features;
    if |features| == 0 {
      features := FEATURES;
    }
    var enabled := CollectTrimmed(features);
    var disabled := CollectTrimmed(o.disabledTools);
    return Policy(enabled, o.readOnly, TrimSpace(o.workspaceRef), disabled);
  }

  // ---------------------------------------------------------------------------
  // The catalog, compacted in place

  predicate Available(t: Tool) {
    t.feature == [] || t.feature in FEATURES
  }

  function Kept(catalog: seq<Tool>): seq<Tool> {
    if catalog == [] then []
    else
      var before, t := Kept(catalog[..|catalog| - 1]), catalog[|catalog| - 1];
      if Available(t) then before + [t] else before
  }

  lemma {:induction false} KeptIsFilter(catalog: seq<Tool>)
    ensures forall t :: t in Kept(catalog) <==> t in catalog && Available(t)
    ensures |Kept(catalog)| <= |catalog|
  {
    if catalog != [] {
      KeptIsFilter(catalog[..|catalog| - 1]);
      assert catalog == catalog[..|catalog| - 1] + [catalog[|catalog| - 1]];
    }
  }

  /** The end of `allSpecs`: `kept` grows over the front of the array it is read from. */
  method AllSpecs(specs: array<Tool>) returns (kept: nat)
    modifies specs
    ensures kept <= specs.Length
    ensures specs[..kept] == Kept(old(specs[..]))
  {
    kept := 0;
    ghost var all := specs[..];
    for i := 0 to specs.Length
      invariant kept <= i
      invariant specs[..kept] == Kept(all[..i])
      invariant specs[i..] == all[i..]
    {
      var t := specs[i];
      assert t == specs[i..][0] == all[i];
      assert all[..i + 1][..i] == all[..i];
      assert specs[i + 1..] == specs[i..][1..];
      if t.feature == [] || t.feature in FEATURES {
        specs[kept] := t;
        kept := kept + 1;
        assert specs[..kept] == specs[..kept - 1] + [t];
      }
      assert specs[i + 1..] == all[i + 1..];
    }
    assert all[..specs.Length] == all;
  }

  // ---------------------------------------------------------------------------
  // Registration

  /** What the server has: tools by name, and the alias map of the middleware. */
  datatype Table = Table(tools: map<string, Tool>, aliases: map<string, string>)

  function AddAliases(aliases: map<string, string>, p: Policy, names: seq<string>, target: string)
    : map<string, string>
  {
    if names == [] then aliases
    else
      var before := AddAliases(aliases, p, names[..|names| - 1], target);
      if names[|names| - 1] in p.disabled then before else before[names[|names| - 1] := target]
  }

  function Registered(catalog: seq<Tool>, p: Policy): Table {
    if catalog == [] then Table(map[], map[])
    else
      var before, t := Registered(catalog[..|catalog| - 1], p), catalog[|catalog| - 1];
      if !Allows(p, t) then before
      else Table(before.tools[t.name := t], AddAliases(before.aliases, p, t.aliases, t.name))
  }

  class Server {
    var tools: map<string, Tool>
    var middleware: Option<map<string, string>>

    constructor ()
      ensures tools == map[] && middleware == None
    {
      tools, middleware := map[], None;
    }

    ghost function View(): Table
      reads this
    {
      Table(tools, if middleware.Some? then middleware.value else map[])
    }

    method AddTool(t: Tool)
      modifies this`tools
      ensures tools == old(tools)[t.name := t]
    {
      tools := tools[t.name := t];
    }
  }

  /** `registerTools` on an already compacted catalog. */
  method RegisterTools(s: Server, p: Policy, catalog: seq<Tool>)
    requires s.tools == map[] && s.middleware == None
    modifies s
    ensures s.View() == Registered(catalog, p)
  {
    var aliases: map<string, string> := map[];
    for i := 0 to |catalog|
      invariant s.middleware == None
      invariant Table(s.tools, aliases) == Registered(catalog[..i], p)
    {
      var t := catalog[i];
      assert catalog[..i + 1][..i] == catalog[..i];
      if !Allows(p, t) {
        continue;
      }
      s.AddTool(t);
      ghost var before := aliases;
      for j := 0 to |t.aliases|
        invariant aliases == AddAliases(before, p, t.aliases[..j], t.name)
      {
        assert t.aliases[..j + 1][..j] == t.aliases[..j];
        if t.aliases[j] in p.disabled {
          continue;
        }
        aliases := aliases[t.aliases[j] := t.name];
      }
      assert t.aliases[..|t.aliases|] == t.aliases;
    }
    assert catalog[..|catalog|] == catalog;
    if |aliases| > 0 {
      s.middleware := Some(aliases);
    }
  }

  // ---------------------------------------------------------------------------
  // Dispatch

  class Request {
    var kind: string
    var name: string

    constructor (kind: string, name: string)
      ensures this.kind == kind && this.name == name
    {
      this.kind, this.name := kind, name;
    }
  }

  function Canonical(table: Table, name: string): string {
    if name in table.aliases then table.aliases[name] else name
  }

  /** The tool a call by `name` reaches, None for an unknown tool. */
  function Dispatch(table: Table, name: string): Option<Tool> {
    var canonical := Canonical(table, name);
    if canonical in table.tools then Some(table.tools[canonical]) else None
  }

  /** `aliasRewriteMiddleware`, then the server's lookup by the rewritten name. */
  method HandleCall(s: Server, request: Request) returns (r: Option<Tool>)
    modifies request`name
    ensures request.kind == CALL_TOOL ==> r == Dispatch(s.View(), old(request.name))
    ensures request.kind == CALL_TOOL ==> request.name == Canonical(s.View(), old(request.name))
    ensures request.kind != CALL_TOOL ==> r == None && request.name == old(request.name)
  {
    if s.middleware.Some? {
      var aliases := s.middleware.value;
      if request.kind == CALL_TOOL {
        if request.name in aliases {
          request.name := aliases[request.name];
        }
      }
    }
    if request.kind != CALL_TOOL || request.name !in s.tools {
      return None;
    }
    return Some(s.tools[request.name]);
  }

  /** The whole start-up, then a call. */
  method ServeCall(specs: array<Tool>, o: Options, name: string) returns (r: Option<Tool>)
    modifies specs
    ensures r == Dispatch(Registered(Kept(old(specs[..])), PolicyOf(o)), name)
    ensures r.Some? ==> r.value in old(specs[..]) && !Lists(o.disabledTools, r.value.name)
    ensures r.Some? && o.readOnly ==> !r.value.mutating
    ensures forall d :: d in o.disabledTools && TrimSpace(d) == name && name != [] ==> r == None
    ensures r.Some? && TrimSpace(o.workspaceRef) != [] ==> r.value.feature != "account"
    ensures !o.readOnly && o.disabledTools == [] && TrimSpace(o.workspaceRef) == [] && o.features == [] ==>
      forall t :: t in old(specs[..]) && Available(t) && t.name == name ==> r.Some?
    ensures Unambiguous(old(specs[..])) ==>
      forall t :: r == Some(t) <==> t in old(specs[..]) && Offered(o, t) && GoesBy(o, t, name)
  {
    var p := NewPolicy(o);
    var kept := AllSpecs(specs);
    var s := new Server();
    RegisterTools(s, p, specs[..kept]);
    var request := new Request(CALL_TOOL, name);
    r := HandleCall(s, request);
    OptionsGovern(old(specs[..]), o, name);
  }

  // ---------------------------------------------------------------------------
  // What registration contains, for any catalog

  predicate AliasRoute(p: Policy, t: Tool, name: string) {
    name in t.aliases && name !in p.disabled
  }

  predicate Routes(p: Policy, t: Tool, name: string) {
    Allows(p, t) && (name == t.name || AliasRoute(p, t, name))
  }

  lemma {:induction false} AliasesAdded(aliases: map<string, string>, p: Policy, names: seq<string>, target: string)
    ensures var r := AddAliases(aliases, p, names, target);
      && (forall a :: a in r <==> a in aliases || (a in names && a !in p.disabled))
      && (forall a :: a in r ==> r[a] == if a in names && a !in p.disabled then target else aliases[a])
  {
    if names != [] {
      AliasesAdded(aliases, p, names[..|names| - 1], target);
      assert names == names[..|names| - 1] + [names[|names| - 1]];
    }
  }

  /** Every registered tool is an allowed tool of the catalog under its own name, and every
      alias leads to the name of an allowed tool that declares it. */
  ghost predicate Sound(catalog: seq<Tool>, p: Policy, table: Table) {
    && (forall n :: n in table.tools ==>
         table.tools[n] in catalog && Allows(p, table.tools[n]) && table.tools[n].name == n)
    && (forall a :: a in table.aliases ==>
         exists t :: t in catalog && Allows(p, t) && AliasRoute(p, t, a) && table.aliases[a] == t.name)
  }

  ghost predicate Complete(catalog: seq<Tool>, p: Policy, table: Table) {
    && (forall t :: t in catalog && Allows(p, t) ==> t.name in table.tools)
    && (forall t, a :: t in catalog && Allows(p, t) && AliasRoute(p, t, a) ==> a in table.aliases)
  }

  lemma {:induction false} RegisteredExactly(catalog: seq<Tool>, p: Policy)
    ensures Sound(catalog, p, Registered(catalog, p)) && Complete(catalog, p, Registered(catalog, p))
  {
    if catalog != [] {
      var init, t := catalog[..|catalog| - 1], catalog[|catalog| - 1];
      assert catalog == init + [t];
      RegisteredExactly(init, p);
      var before, after := Registered(init, p), Registered(catalog, p);
      if Allows(p, t) {
        AliasesAdded(before.aliases, p, t.aliases, t.name);
        forall a | a in after.aliases
          ensures exists u :: u in catalog && Allows(p, u) && AliasRoute(p, u, a) && after.aliases[a] == u.name
        {
          if AliasRoute(p, t, a) {
            assert t in catalog && after.aliases[a] == t.name;
          } else {
            var u :| u in init && Allows(p, u) && AliasRoute(p, u, a) && before.aliases[a] == u.name;
            assert u in catalog;
          }
        }
      }
    }
  }

  /** For any catalog: exactly the names of allowed tools and their enabled aliases can be
      called, and what a call reaches is an allowed tool of the catalog. */
  lemma CallableExactly(catalog: seq<Tool>, p: Policy, name: string)
    ensures Dispatch(Registered(catalog, p), name).Some? <==> exists t :: t in catalog && Routes(p, t, name)
    ensures Dispatch(Registered(catalog, p), name).Some? ==>
      Dispatch(Registered(catalog, p), name).value in catalog && Allows(p, Dispatch(Registered(catalog, p), name).value)
  {
    var table := Registered(catalog, p);
    RegisteredExactly(catalog, p);
    if name in table.aliases {
      var t :| t in catalog && Allows(p, t) && AliasRoute(p, t, name) && table.aliases[name] == t.name;
      assert Routes(p, t, name);
    } else if name in table.tools {
      assert Routes(p, table.tools[name], name);
    }
  }

  // ---------------------------------------------------------------------------
  // The declarative rule

  predicate Named(t: Tool, name: string) {
    name == t.name || name in t.aliases
  }

  /** No name or alias belongs to two different tools. */
  ghost predicate Unambiguous(catalog: seq<Tool>) {
    forall t, u, n :: t in catalog && u in catalog && Named(t, n) && Named(u, n) ==> t == u
  }

  /** Compaction, registration and rewriting together: a call reaches tool t exactly when t is
      available and allowed and was called by its name or one of its aliases that is not
      disabled. */
  lemma DispatchRefinesRule(catalog: seq<Tool>, p: Policy, name: string, t: Tool)
    requires Unambiguous(catalog)
    ensures Dispatch(Registered(Kept(catalog), p), name) == Some(t) <==>
      t in catalog && Available(t) && Routes(p, t, name)
  {
    var kept := Kept(catalog);
    var table := Registered(kept, p);
    KeptIsFilter(catalog);
    RegisteredExactly(kept, p);
    if name in table.aliases {
      var u :| u in kept && Allows(p, u) && AliasRoute(p, u, name) && table.aliases[name] == u.name;
      assert Named(u, name) && Named(u, u.name) && u.name in table.tools;
      assert Named(table.tools[u.name], u.name);
      if Routes(p, t, name) && t in catalog { assert Named(t, name); }
    } else if name in table.tools {
      assert Named(table.tools[name], name);
      if Routes(p, t, name) && t in catalog { assert Named(t, name); }
    }
  }

  /** A disabled name reaches nothing, read-only mode reaches no mutating tool, and a
      workspace-bound server reaches no account tool: for any catalog, by name or alias. */
  lemma RestrictionsHold(catalog: seq<Tool>, p: Policy, name: string)
    ensures var r := Dispatch(Registered(Kept(catalog), p), name);
      && (name in p.disabled ==> r.None?)
      && (r.Some? && p.readOnly ==> !r.value.mutating)
      && (r.Some? && p.workspaceRef != [] ==> r.value.feature != ACCOUNT)
  {
    CallableExactly(Kept(catalog), p, name);
  }

  // ---------------------------------------------------------------------------
  // Monotonicity

  /** `p` restricts at least as much as `q`. */
  predicate Stricter(p: Policy, q: Policy) {
    && q.disabled <= p.disabled
    && p.features <= q.features
    && (q.readOnly ==> p.readOnly)
    && (q.workspaceRef != [] ==> p.workspaceRef != [])
  }

  /** Restricting the policy never makes a new name callable, whatever the catalog, and in an
      unambiguous catalog a name that stays callable reaches the same tool. */
  lemma RestrictingIsMonotone(catalog: seq<Tool>, p: Policy, q: Policy, name: string)
    requires Stricter(p, q)
    ensures Dispatch(Registered(Kept(catalog), p), name).Some? ==> Dispatch(Registered(Kept(catalog), q), name).Some?
    ensures Unambiguous(catalog) && Dispatch(Registered(Kept(catalog), p), name).Some? ==>
      Dispatch(Registered(Kept(catalog), q), name) == Dispatch(Registered(Kept(catalog), p), name)
  {
    CallableExactly(Kept(catalog), p, name);
    CallableExactly(Kept(catalog), q, name);
    var r := Dispatch(Registered(Kept(catalog), p), name);
    if r.Some? {
      var t :| t in Kept(catalog) && Routes(p, t, name);
      assert Routes(q, t, name);
      if Unambiguous(catalog) {
        DispatchRefinesRule(catalog, p, name, r.value);
        DispatchRefinesRule(catalog, q, name, r.value);
      }
    }
  }

  // ---------------------------------------------------------------------------
  // Exactly when one policy restricts another

  predicate Callable(catalog: seq<Tool>, p: Policy, name: string) {
    Dispatch(Registered(Kept(catalog), p), name).Some?
  }

  /** Whatever the catalog, every name callable under `p` is callable under `q`. */
  ghost predicate NeverCallsMore(p: Policy, q: Policy) {
    forall catalog, name :: Callable(catalog, p, name) ==> Callable(catalog, q, name)
  }

  /** The group's tools may be called as far as the feature selection goes. */
  predicate Enables(p: Policy, feature: string) {
    feature in p.features && (feature == ACCOUNT ==> p.workspaceRef == [])
  }

  predicate NoWider(p: Policy, q: Policy) {
    && q.disabled <= p.disabled
    && (q.readOnly ==> p.readOnly)
    && (forall f :: f in FEATURES && Enables(p, f) ==> Enables(q, f))
  }

  lemma NoWiderNeverCallsMore(catalog: seq<Tool>, p: Policy, q: Policy, name: string)
    requires NoWider(p, q) && Callable(catalog, p, name)
    ensures Callable(catalog, q, name)
  {
    CallableExactly(Kept(catalog), p, name);
    CallableExactly(Kept(catalog), q, name);
    KeptIsFilter(catalog);
    var t :| t in Kept(catalog) && Routes(p, t, name);
    if t.feature != [] { assert Enables(p, t.feature); }
    assert Routes(q, t, name);
  }

  /** A tool alone in its catalog can be called by its name exactly when it is available and
      allowed. */
  lemma AloneInCatalog(t: Tool, p: Policy)
    ensures Callable([t], p, t.name) <==> Available(t) && Allows(p, t)
  {
    KeptIsFilter([t]);
    CallableExactly(Kept([t]), p, t.name);
    if Available(t) && Allows(p, t) {
      assert t in Kept([t]) && Routes(p, t, t.name);
    }
  }

  lemma {:induction false} LongestName(names: set<string>) returns (n: nat)
    ensures forall name :: name in names ==> |name| <= n
    decreases names
  {
    n := 0;
    if names != {} {
      var name :| name in names;
      var m := LongestName(names - {name});
      n := if m < |name| then |name| else m;
      forall k | k in names ensures |k| <= n {
        assert k == name || k in names - {name};
      }
    }
  }

  lemma FreshName(names: set<string>) returns (name: string)
    ensures name != [] && name !in names
  {
    var n := LongestName(names);
    name := seq(n + 1, _ => 'a');
  }

  /** Of any two policies: the first never makes a name callable that the second does not, in any
      catalog, if and only if it disables all the second disables, is read-only if the second
      is, and enables no official group the second does not. */
  lemma NeverCallsMoreExactly(p: Policy, q: Policy)
    ensures NeverCallsMore(p, q) <==> NoWider(p, q)
  {
    if NoWider(p, q) {
      forall catalog, name | Callable(catalog, p, name) ensures Callable(catalog, q, name) {
        NoWiderNeverCallsMore(catalog, p, q, name);
      }
    } else {
      var t := WiderWitness(p, q);
      assert Callable([t], p, t.name) && !Callable([t], q, t.name);
    }
  }

  /** A policy that is wider has a one-tool catalog to show it. */
  lemma WiderWitness(p: Policy, q: Policy) returns (t: Tool)
    requires !NoWider(p, q)
    ensures Callable([t], p, t.name) && !Callable([t], q, t.name)
  {
    if !(q.disabled <= p.disabled) {
      var name :| name in q.disabled && name !in p.disabled;
      t := Tool(name, [], false, []);
    } else {
      var name := FreshName(p.disabled);
      if q.readOnly && !p.readOnly {
        t := Tool(name, [], true, []);
      } else {
        var f :| f in FEATURES && Enables(p, f) && !Enables(q, f);
        t := Tool(name, f, false, []);
      }
    }
    AloneInCatalog(t, p);
    AloneInCatalog(t, q);
  }

  lemma FeaturesAreTrimmed()
    ensures forall f :: f in FEATURES ==> f != [] && TrimSpace(f) == f
    ensures forall f :: f in TrimmedSet(FEATURES) <==> f in FEATURES
  {
    forall f | f in FEATURES ensures f != [] && TrimSpace(f) == f {
      assert Trimmed(f);
      TrimOfTrimmed(f);
    }
  }

  /** On the options: dropping features makes no name callable, in any catalog, if and only if
      some are left, or the old selection already had every default group but the account tools
      of a workspace-bound server. An empty list stands for all of them. */
  lemma NarrowingFeatures(o: Options, fewer: seq<string>)
    requires forall f :: f in fewer ==> f in o.features
    ensures NeverCallsMore(PolicyOf(o.(features := fewer)), PolicyOf(o)) <==>
      || fewer != []
      || forall f :: f in FEATURES ==>
           f in PolicyOf(o).features || (f == ACCOUNT && TrimSpace(o.workspaceRef) != [])
  {
    var p, q := PolicyOf(o.(features := fewer)), PolicyOf(o);
    NeverCallsMoreExactly(p, q);
    FeaturesAreTrimmed();
    if fewer != [] {
      assert TrimmedSet(fewer) <= TrimmedSet(o.features);
    } else {
      assert p.features == TrimmedSet(FEATURES);
      assert forall f :: f in FEATURES ==> f in p.features;
    }
  }

  // ---------------------------------------------------------------------------
  // From the options to the calls

  /** The name is the trimmed text of one of the entries; blank entries name nothing. */
  predicate Lists(entries: seq<string>, name: string) {
    name != [] && exists e :: e in entries && TrimSpace(e) == name
  }

  /** What the options let be called, for a tool of the catalog. */
  predicate Offered(o: Options, t: Tool) {
    && (t.feature == [] || t.feature in FEATURES)
    && !Lists(o.disabledTools, t.name)
    && (o.readOnly ==> !t.mutating)
    && (t.feature != [] ==> o.features == [] || Lists(o.features, t.feature))
    && (t.feature == "account" ==> TrimSpace(o.workspaceRef) == [])
  }

  /** The name is the tool's own or an alias that is not disabled. */
  predicate GoesBy(o: Options, t: Tool, name: string) {
    name == t.name || (name in t.aliases && !Lists(o.disabledTools, name))
  }

  lemma TrimmedSetLists(entries: seq<string>, name: string)
    ensures name in TrimmedSet(entries) <==> Lists(entries, name)
  {
  }

  lemma OfferedIsAllowed(o: Options, t: Tool)
    ensures Offered(o, t) <==> Available(t) && Allows(PolicyOf(o), t)
  {
    FeaturesAreTrimmed();
    TrimmedSetLists(o.disabledTools, t.name);
    TrimmedSetLists(o.features, t.feature);
    TrimmedSetLists(FEATURES, t.feature);
  }

  /** The server as a whole, for any catalog: exactly the names of offered tools and their aliases
      that are not disabled can be called, and what a call reaches is offered. In an unambiguous
      catalog it reaches the one offered tool that goes by the name. */
  lemma OptionsDecide(catalog: seq<Tool>, o: Options, name: string)
    ensures var r := Dispatch(Registered(Kept(catalog), PolicyOf(o)), name);
      && (r.Some? <==> exists t :: t in catalog && Offered(o, t) && GoesBy(o, t, name))
      && (r.Some? ==> r.value in catalog && Offered(o, r.value))
      && (Unambiguous(catalog) ==>
           forall t :: r == Some(t) <==> t in catalog && Offered(o, t) && GoesBy(o, t, name))
  {
    var p, r := PolicyOf(o), Dispatch(Registered(Kept(catalog), PolicyOf(o)), name);
    KeptIsFilter(catalog);
    CallableExactly(Kept(catalog), p, name);
    forall t: Tool ensures Available(t) && Routes(p, t, name) <==> Offered(o, t) && GoesBy(o, t, name) {
      OfferedIsAllowed(o, t);
      TrimmedSetLists(o.disabledTools, name);
    }
    if r.Some? {
      OfferedIsAllowed(o, r.value);
    }
    if Unambiguous(catalog) {
      forall t ensures r == Some(t) <==> t in catalog && Offered(o, t) && GoesBy(o, t, name) {
        DispatchRefinesRule(catalog, p, name, t);
      }
    }
  }

  /** What the single options do: read-only mode hides mutating tools, a disabled name leads
      nowhere, a bound workspace hides account tools; and with none of these and no feature list
      every available tool answers to its name. */
  lemma OptionsGovern(catalog: seq<Tool>, o: Options, name: string)
    ensures var r := Dispatch(Registered(Kept(catalog), PolicyOf(o)), name);
      && (r.Some? ==> r.value in catalog && !Lists(o.disabledTools, r.value.name))
      && (r.Some? && o.readOnly ==> !r.value.mutating)
      && (forall d :: d in o.disabledTools && TrimSpace(d) == name && name != [] ==> r == None)
      && (r.Some? && TrimSpace(o.workspaceRef) != [] ==> r.value.feature != "account")
      && (!o.readOnly && o.disabledTools == [] && TrimSpace(o.workspaceRef) == [] && o.features == [] ==>
           forall t :: t in catalog && Available(t) && t.name == name ==> r.Some?)
      && (Unambiguous(catalog) ==>
           forall t :: r == Some(t) <==> t in catalog && Offered(o, t) && GoesBy(o, t, name))
  {
    OptionsDecide(catalog, o, name);
    forall d | d in o.disabledTools && TrimSpace(d) == name && name != []
      ensures Dispatch(Registered(Kept(catalog), PolicyOf(o)), name) == None
    {
      assert Lists(o.disabledTools, name);
    }
    if !o.readOnly && o.disabledTools == [] && TrimSpace(o.workspaceRef) == [] && o.features == [] {
      forall t | t in catalog && Available(t) && t.name == name ensures Offered(o, t) && GoesBy(o, t, name) {}
    }
  }
}
