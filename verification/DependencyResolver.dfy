/** Dependency satisfaction and ordering of plugins. */
module DependencyResolver {
  import opened Graphs
  import opened TopologicalOrder
  import opened Versioning

  datatype Status = Discovered | Registered | Initialized | Enabled | Disabled | Error

  type Config = map<string, string>

  datatype Metadata = Metadata(name: string, version: string, dependencies: seq<string>)

  /** What a plugin class fixes: its metadata, its licence declaration and the
      outcomes of its own environment check and of its enable and disable hooks. */
  datatype PluginDef = PluginDef(meta: Metadata, requiresLicense: bool, licensedFeatures: seq<string>,
                                 environmentOk: bool, enableHookOk: bool, disableHookOk: bool)

  datatype PluginState = PluginState(def: PluginDef, status: Status, config: Config)

  type Registry = map<string, PluginState>

  function EnabledNames(ps: Registry): set<string>
  {
    set n | n in ps && ps[n].status == Enabled
  }

  // ---- check ----------------------------------------------------------------

  /** The outcomes of `check`: the two dependency errors name what is unmet;
      `Malformed` is the plain ValueError of an unparseable string. */
  datatype CheckResult =
    | Met
    | NotEnabled(name: string)
    | WrongVersion(requirement: Requirement, installed: string)
    | Malformed(raw: string)

  function CheckOne(pk: Packaging, ps: Registry, raw: string): CheckResult
  {
    match Parse(pk, raw)
    case None => Malformed(raw)
    case Some(req) =>
      if req.name !in ps || ps[req.name].status != Enabled then NotEnabled(req.name)
      else if req.range != "" && !req.SatisfiedBy(pk, ps[req.name].def.meta.version)
        then WrongVersion(req, ps[req.name].def.meta.version)
      else Met
  }

  /** The first problem in declaration order, if any. */
  function CheckAll(pk: Packaging, ps: Registry, raws: seq<string>): CheckResult
  {
    if raws == [] then Met
    else
      var first := CheckOne(pk, ps, raws[0]);
      if first != Met then first else CheckAll(pk, ps, raws[1..])
  }

  method Check(pk: Packaging, plugin: Metadata, ps: Registry) returns (r: CheckResult)
    ensures r == CheckAll(pk, ps, plugin.dependencies)
  {
    var i := 0;
    while i < |plugin.dependencies|
      invariant 0 <= i <= |plugin.dependencies|
      invariant CheckAll(pk, ps, plugin.dependencies) == CheckAll(pk, ps, plugin.dependencies[i..])
    {
      var raw := plugin.dependencies[i];
      assert plugin.dependencies[i..][1..] == plugin.dependencies[i + 1..];
      var parsed := ParseDependency(pk, raw);
      if parsed == None {
        return Malformed(raw);
      }
      var requirement := parsed.value;
      if requirement.name !in ps || ps[requirement.name].status != Enabled {
        return NotEnabled(requirement.name);
      }
      var installed := ps[requirement.name].def.meta.version;
      if requirement.range != "" && !requirement.SatisfiedBy(pk, installed) {
        return WrongVersion(requirement, installed);
      }
      i := i + 1;
    }
    return Met;
  }

  /** One declared dependency is met: it parses, the plugin it names is enabled
      and that plugin's version is in its range. */
  predicate Satisfied(pk: Packaging, ps: Registry, raw: string)
  {
    match Parse(pk, raw)
    case None => false
    case Some(req) => req.name in ps && ps[req.name].status == Enabled && req.SatisfiedBy(pk, ps[req.name].def.meta.version)
  }

  lemma CheckOneMeaning(pk: Packaging, ps: Registry, raw: string)
    ensures CheckOne(pk, ps, raw) == Met <==> Satisfied(pk, ps, raw)
  {
  }

  /** The gate passes exactly when every declared dependency is met. */
  lemma {:induction false} CheckMeaning(pk: Packaging, ps: Registry, raws: seq<string>)
    ensures CheckAll(pk, ps, raws) == Met <==> forall i :: 0 <= i < |raws| ==> Satisfied(pk, ps, raws[i])
  {
    if raws != [] {
      CheckOneMeaning(pk, ps, raws[0]);
      CheckMeaning(pk, ps, raws[1..]);
    }
  }

  /** What a refusal names: the first dependency that is not met. It is malformed, or no
      plugin of its name is enabled, or the enabled one is outside its range. */
  lemma {:induction false} FirstProblem(pk: Packaging, ps: Registry, raws: seq<string>) returns (i: nat)
    requires CheckAll(pk, ps, raws) != Met
    ensures i < |raws| && forall j :: 0 <= j < i ==> Satisfied(pk, ps, raws[j])
    ensures match Parse(pk, raws[i])
            case None => CheckAll(pk, ps, raws) == Malformed(raws[i])
            case Some(req) =>
              if req.name !in EnabledNames(ps) then CheckAll(pk, ps, raws) == NotEnabled(req.name)
              else
                && CheckAll(pk, ps, raws) == WrongVersion(req, ps[req.name].def.meta.version)
                && req.range != "" && !pk.contains(req.range, ps[req.name].def.meta.version)
  {
    CheckOneMeaning(pk, ps, raws[0]);
    if CheckOne(pk, ps, raws[0]) != Met {
      i := 0;
    } else {
      i := FirstProblem(pk, ps, raws[1..]);
      i := i + 1;
      assert raws[i] == raws[1..][i - 1];
      forall j | 0 <= j < i ensures Satisfied(pk, ps, raws[j]) { assert j > 0 ==> raws[j] == raws[1..][j - 1]; }
    }
  }

  // ---- describe ---------------------------------------------------------------

  datatype Descriptor = Descriptor(name: string, specifier: string, installedVersion: Option<string>, satisfied: bool)

  predicate IsSatisfied(pk: Packaging, ps: Registry, req: Requirement)
  {
    req.name in ps && ps[req.name].status == Enabled && req.SatisfiedBy(pk, ps[req.name].def.meta.version)
  }

  /** `d` tells the truth about one declared dependency. */
  predicate Describes(pk: Packaging, ps: Registry, raw: string, d: Descriptor)
  {
    && Parse(pk, raw).Some? && d.name == Parse(pk, raw).value.name && d.specifier == pk.shown(Parse(pk, raw).value.range)
    && d.installedVersion == (if d.name in ps then Some(ps[d.name].def.meta.version) else None)
    && (d.satisfied <==> CheckOne(pk, ps, raw) == Met)
  }

  method DescribeOne(pk: Packaging, raw: string, ps: Registry) returns (d: Option<Descriptor>)
    ensures d == None <==> Parse(pk, raw) == None
    ensures d.Some? ==> Describes(pk, ps, raw, d.value)
  {
    var parsed := ParseDependency(pk, raw);
    if parsed == None {
      return None;
    }
    var req := parsed.value;
    var installed := if req.name in ps then Some(ps[req.name].def.meta.version) else None;
    return Some(Descriptor(req.name, pk.shown(req.range), installed, IsSatisfied(pk, ps, req)));
  }

  /** One truthful descriptor per declared dependency, in order. */
  ghost predicate DescribesAll(pk: Packaging, ps: Registry, raws: seq<string>, ds: seq<Descriptor>)
  {
    |ds| == |raws| && forall i :: 0 <= i < |raws| ==> Describes(pk, ps, raws[i], ds[i])
  }

  lemma DescribesOneMore(pk: Packaging, ps: Registry, raws: seq<string>, ds: seq<Descriptor>, i: nat, d: Descriptor)
    requires i < |raws| && DescribesAll(pk, ps, raws[..i], ds) && Describes(pk, ps, raws[i], d)
    ensures DescribesAll(pk, ps, raws[..i + 1], ds + [d])
  {
    forall k | 0 <= k < i + 1 ensures Describes(pk, ps, raws[..i + 1][k], (ds + [d])[k]) {
      if k < i { assert Describes(pk, ps, raws[..i][k], ds[k]); }
    }
  }

  /** The view says "satisfied" throughout exactly when the gate passes, and there
      is no view exactly when some string does not parse. */
  lemma DescribedGate(pk: Packaging, ps: Registry, raws: seq<string>, ds: seq<Descriptor>)
    requires DescribesAll(pk, ps, raws, ds)
    ensures CheckAll(pk, ps, raws) == Met <==> forall i :: 0 <= i < |ds| ==> ds[i].satisfied
    ensures forall i :: 0 <= i < |raws| ==> Parse(pk, raws[i]).Some?
  {
    CheckMeaning(pk, ps, raws);
    forall i | 0 <= i < |raws| ensures ds[i].satisfied <==> Satisfied(pk, ps, raws[i]) {
      assert Describes(pk, ps, raws[i], ds[i]);
    }
    forall i | 0 <= i < |raws| ensures Parse(pk, raws[i]).Some? {
      assert Describes(pk, ps, raws[i], ds[i]);
    }
  }

  /** The admin view of a plugin's dependencies; None when a string does not parse. */
  method Describe(pk: Packaging, plugin: Metadata, ps: Registry) returns (r: Option<seq<Descriptor>>)
    ensures r == None ==> exists i :: 0 <= i < |plugin.dependencies| && Parse(pk, plugin.dependencies[i]) == None
    ensures r.Some? ==> DescribesAll(pk, ps, plugin.dependencies, r.value)
  {
    var raws := plugin.dependencies;
    var descriptors: seq<Descriptor> := [];
    for i := 0 to |raws|
      invariant DescribesAll(pk, ps, raws[..i], descriptors)
    {
      var d := DescribeOne(pk, raws[i], ps);
      if d == None {
        return None;
      }
      DescribesOneMore(pk, ps, raws, descriptors, i, d.value);
      descriptors := descriptors + [d.value];
    }
    assert raws[..|raws|] == raws;
    return Some(descriptors);
  }

  // ---- enable_order -------------------------------------------------------------

  function NamesOf(plugins: seq<Metadata>): (r: seq<Name>)
    ensures |r| == |plugins| && forall i :: 0 <= i < |r| ==> r[i] == plugins[i].name
  {
    if plugins == [] then [] else NamesOf(plugins[..|plugins| - 1]) + [plugins[|plugins| - 1].name]
  }

  /** The dependencies of one plugin inside a set of names; unparseable strings
      and dependencies outside the set do not constrain the order. */
  function InSet(pk: Packaging, raws: seq<string>, names: set<Name>): set<Name>
  {
    set raw | raw in raws && Parse(pk, raw).Some? && Parse(pk, raw).value.name in names :: Parse(pk, raw).value.name
  }

  /** Of plugins that share a name, the last one's dependencies count. */
  function InSetGraph(pk: Packaging, plugins: seq<Metadata>, names: set<Name>): (g: Graph)
    ensures g.Keys == Elems(NamesOf(plugins))
  {
    if plugins == [] then map[]
    else
      var last := plugins[|plugins| - 1];
      InSetGraph(pk, plugins[..|plugins| - 1], names)[last.name := InSet(pk, last.dependencies, names)]
  }

  lemma {:induction false} LastOneCounts(pk: Packaging, plugins: seq<Metadata>, names: set<Name>, k: nat)
    requires k < |plugins| && forall j :: k < j < |plugins| ==> plugins[j].name != plugins[k].name
    ensures InSetGraph(pk, plugins, names)[plugins[k].name] == InSet(pk, plugins[k].dependencies, names)
  {
    var last, front := plugins[|plugins| - 1], plugins[..|plugins| - 1];
    if k < |plugins| - 1 {
      LastOneCounts(pk, front, names, k);
    }
  }

  /** The specification of `enable_order`. */
  function OrderOf(pk: Packaging, plugins: seq<Metadata>): seq<Name>
  {
    var names := NamesOf(plugins);
    Sort(InSetGraph(pk, plugins, Elems(names)), names)
  }

  method InSetDependencies(pk: Packaging, raws: seq<string>, names: set<Name>) returns (r: set<Name>)
    ensures r == InSet(pk, raws, names)
  {
    r := {};
    for i := 0 to |raws|
      invariant r == InSet(pk, raws[..i], names)
    {
      var parsed := ParseDependency(pk, raws[i]);
      assert raws[..i + 1] == raws[..i] + [raws[i]];
      if parsed.Some? && parsed.value.name in names {
        r := r + {parsed.value.name};
      }
    }
    assert raws[..|raws|] == raws;
  }

  method BuildInSetGraph(pk: Packaging, plugins: seq<Metadata>) returns (inSet: Graph)
    ensures inSet == InSetGraph(pk, plugins, Elems(NamesOf(plugins)))
  {
    var names := set p | p in plugins :: p.name;
    assert names == Elems(NamesOf(plugins));
    inSet := map[];
    for i := 0 to |plugins|
      invariant inSet == InSetGraph(pk, plugins[..i], names)
    {
      var dependencies := InSetDependencies(pk, plugins[i].dependencies, names);
      assert plugins[..i + 1][..i] == plugins[..i];
      inSet := inSet[plugins[i].name := dependencies];
    }
    assert plugins[..|plugins|] == plugins;
  }

  method EnableOrder(pk: Packaging, plugins: seq<Metadata>) returns (ordered: seq<Name>)
    ensures ordered == OrderOf(pk, plugins)
  {
    var inSet := BuildInSetGraph(pk, plugins);
    ordered := SortInRounds(inSet, NamesOf(plugins));
  }

  /** The inner loop of `enable_order`: one scan over the remaining names. */
  method ScanOnce(g: Graph, remaining: seq<Name>, ordered: seq<Name>, resolved: set<Name>)
      returns (ordered': seq<Name>, resolved': set<Name>, stillBlocked: seq<Name>, madeProgress: bool)
    requires Elems(remaining) <= g.Keys
    ensures ordered' == ordered + Round(g, remaining, resolved).0
    ensures resolved' == resolved + Elems(Round(g, remaining, resolved).0)
    ensures stillBlocked == Round(g, remaining, resolved).1
    ensures madeProgress <==> Round(g, remaining, resolved).0 != []
  {
    ordered', resolved', stillBlocked, madeProgress := ordered, resolved, [], false;
    ghost var done, newly := Round(g, remaining, resolved), [];
    for i := 0 to |remaining|
      invariant Elems(remaining[i..]) <= g.Keys
      invariant ordered' == ordered + newly && resolved' == resolved + Elems(newly)
      invariant done.0 == newly + Round(g, remaining[i..], resolved').0
      invariant done.1 == stillBlocked + Round(g, remaining[i..], resolved').1
      invariant madeProgress <==> newly != []
    {
      var name := remaining[i];
      RoundUnfolds(g, remaining[i..], resolved');
      assert remaining[i..][0] == name && remaining[i..][1..] == remaining[i + 1..];
      if g[name] <= resolved' {
        ordered' := ordered' + [name];
        resolved' := resolved' + {name};
        madeProgress := true;
        ElemsAppend(newly, [name]);
        assert Elems([name]) == {name};
        assert resolved + Elems(newly + [name]) == resolved';
        newly := newly + [name];
      } else {
        stillBlocked := stillBlocked + [name];
      }
    }
    assert remaining[|remaining|..] == [];
    assert newly + [] == newly && stillBlocked + [] == stillBlocked;
  }

  /** The outer loop of `enable_order`: scans until nothing is left or a scan
      resolves nothing; what is left then is appended as it stands. */
  method SortInRounds(g: Graph, names: seq<Name>) returns (ordered: seq<Name>)
    requires Elems(names) <= g.Keys
    ensures ordered == Sort(g, names)
  {
    ordered := [];
    var resolved: set<Name> := {};
    var remaining := names;
    var madeProgress := true;
    while remaining != [] && madeProgress
      invariant Elems(remaining) <= g.Keys
      invariant Sort(g, names) == ordered + (if madeProgress then Outstanding(g, remaining, resolved) else remaining)
      decreases |remaining| + if madeProgress then 1 else 0
    {
      OutstandingStep(g, remaining, resolved);
      ghost var before, done := ordered, Round(g, remaining, resolved).0;
      ordered, resolved, remaining, madeProgress := ScanOnce(g, remaining, ordered, resolved);
      ghost var rest := if done != [] then Outstanding(g, remaining, resolved) else remaining;
      Associate(before, done, rest);
    }
    if madeProgress {
      assert remaining == [];
      NothingOutstanding(g, resolved);
    }
    ordered := ordered + remaining;
  }

  /** What the rounds from here on append. */
  ghost function Outstanding(g: Graph, remaining: seq<Name>, resolved: set<Name>): seq<Name>
    requires Elems(remaining) <= g.Keys
  {
    Resolvable(g, remaining, resolved) + Stuck(g, remaining, resolved)
  }

  lemma NothingOutstanding(g: Graph, resolved: set<Name>)
    ensures Outstanding(g, [], resolved) == []
  {
  }

  lemma OutstandingStep(g: Graph, remaining: seq<Name>, resolved: set<Name>)
    requires Elems(remaining) <= g.Keys
    ensures var (done, blocked) := Round(g, remaining, resolved);
      && Elems(blocked) <= g.Keys
      && (|blocked| < |remaining| || done == [])
      && Outstanding(g, remaining, resolved)
           == done + if done != [] then Outstanding(g, blocked, resolved + Elems(done)) else blocked
  {
    var (done, blocked) := Round(g, remaining, resolved);
    if done == [] {
      RoundOrders(g, remaining, resolved);
      RoundOnBlocked(g, remaining, resolved);
    } else {
      Associate(done, Resolvable(g, blocked, resolved + Elems(done)), Stuck(g, blocked, resolved + Elems(done)));
    }
  }
}
