/** Whole runs of the plugin system: exactly when the enabled plugins stay consistent,
    and the run that shows what ranged dependencies break. */
module Runs {
  import opened Graphs
  import opened Versioning
  import opened DependencyResolver
  import opened ConfigStore
  import opened Lifecycle
  import opened Consistency
  import opened Boot

  // ---- The boot keeps the invariant, completed or not ---------------------------

  /** What one turn can do to the registry, with no assumption on the plugin. */
  lemma TurnShape(h: Host, s: System, name: string, entry: Option<Entry>, saveOk: bool)
    requires Waiting(s.plugins, name)
    ensures var t, mid := Restored(h, s, name, entry, saveOk).0, WithStoredConfig(s.plugins, name, entry);
      || t.plugins == s.plugins
      || t.plugins == mid
      || (t.plugins == WithStatus(mid, name, Enabled) && Gated(h, mid[name].def)
          && CheckAll(h.pk, mid, mid[name].def.meta.dependencies) == Met)
  {
    assert s.plugins[name := s.plugins[name]] == s.plugins;
  }

  lemma LoadedIsConsistent(h: Host, ps: Registry, name: string, entry: Option<Entry>)
    requires Consistent(h, ps) && Waiting(ps, name)
    ensures Consistent(h, WithStoredConfig(ps, name, entry))
  {
    var mid := WithStoredConfig(ps, name, entry);
    assert EnabledNames(mid) == EnabledNames(ps);
    assert SameEnabled(ps, mid);
    SameEnabledKeepsConsistent(h, ps, mid);
  }

  lemma TurnKeepsConsistent(h: Host, s: System, name: string, entry: Option<Entry>, saveOk: bool)
    requires Consistent(h, s.plugins) && Waiting(s.plugins, name)
    ensures var t := Restored(h, s, name, entry, saveOk).0;
      && Consistent(h, t.plugins) && SameDefs(s.plugins, t.plugins)
      && forall n :: n in s.plugins && n != name ==> t.plugins[n] == s.plugins[n]
  {
    var t, mid := Restored(h, s, name, entry, saveOk).0, WithStoredConfig(s.plugins, name, entry);
    TurnShape(h, s, name, entry, saveOk);
    LoadedIsConsistent(h, s.plugins, name, entry);
    if t.plugins == WithStatus(mid, name, Enabled) && CheckAll(h.pk, mid, mid[name].def.meta.dependencies) == Met && Gated(h, mid[name].def) {
      CheckMeaning(h.pk, mid, mid[name].def.meta.dependencies);
      EnablingKeepsConsistent(h, mid, name);
    }
  }

  lemma {:induction false} RestoringKeepsConsistent(h: Host, s: System, order: seq<string>, entries: map<string, Entry>, unsaved: set<string>)
    requires Consistent(h, s.plugins) && AllWaiting(s.plugins, order)
    ensures Consistent(h, RestoredAll(h, s, order, entries, unsaved).0.plugins)
    ensures SameDefs(s.plugins, RestoredAll(h, s, order, entries, unsaved).0.plugins)
    decreases |order|
  {
    if order != [] {
      var n, rest := order[0], order[1..];
      assert Waiting(s.plugins, order[0]);
      var (t, outcome) := Restored(h, s, n, EntryFor(entries, n), n !in unsaved);
      TurnKeepsConsistent(h, s, n, EntryFor(entries, n), n !in unsaved);
      if outcome == Completed {
        WaitingAfter(s.plugins, t.plugins, order);
        RestoringKeepsConsistent(h, t, rest, entries, unsaved);
      }
    }
  }

  lemma BootKeepsConsistent(h: Host, s: System, unsaved: set<string>)
    requires Consistent(h, s.plugins) && s.manifest.Valid()
    ensures Consistent(h, Booted(h, s, unsaved).0.plugins)
    ensures SameDefs(s.plugins, Booted(h, s, unsaved).0.plugins)
  {
    PendingOrder(h, s);
    var es := EnabledEntries(s.manifest, s.configs, s.manifest.keys);
    RestoringKeepsConsistent(h, s, OrderOf(h.pk, PendingList(s)), KnownEntries(s.plugins, es), unsaved);
  }

  // ---- The boot and the files ------------------------------------------------------

  lemma ReconciledKeepsFlags(m: Manifest, entry: Option<Entry>, meta: Metadata, saveOk: bool)
    requires m.Valid() && meta.name in EnabledFlags(m)
    ensures Reconciled(m, entry, meta, saveOk).Valid()
    ensures EnabledFlags(Reconciled(m, entry, meta, saveOk)) == EnabledFlags(m)
  {
    SavedIsValid(m, meta.name, true, Some(meta.version));
    SavedEffect(m, meta.name, true, Some(meta.version));
  }

  lemma TurnFiles(h: Host, s: System, name: string, entry: Option<Entry>, saveOk: bool)
    requires name in s.plugins
    ensures var t := Restored(h, s, name, entry, saveOk).0;
      && t.configs == s.configs
      && (t.manifest == s.manifest || t.manifest == Reconciled(s.manifest, entry, s.plugins[name].def.meta, saveOk))
      && SameDefs(s.plugins, t.plugins)
  {
  }

  lemma {:induction false} RestoringKeepsFlags(h: Host, s: System, order: seq<string>, entries: map<string, Entry>, unsaved: set<string>)
    requires s.manifest.Valid() && Named(s.plugins)
    requires forall i :: 0 <= i < |order| ==> order[i] in EnabledFlags(s.manifest)
    ensures RestoredAll(h, s, order, entries, unsaved).0.manifest.Valid()
    ensures EnabledFlags(RestoredAll(h, s, order, entries, unsaved).0.manifest) == EnabledFlags(s.manifest)
    ensures RestoredAll(h, s, order, entries, unsaved).0.configs == s.configs
    ensures SameDefs(s.plugins, RestoredAll(h, s, order, entries, unsaved).0.plugins)
    decreases |order|
  {
    if order != [] {
      var n, rest := order[0], order[1..];
      forall i | 0 <= i < |rest| ensures rest[i] in EnabledFlags(s.manifest) { assert rest[i] == order[i + 1]; }
      if n in s.plugins {
        var (t, outcome) := Restored(h, s, n, EntryFor(entries, n), n !in unsaved);
        assert order[0] in EnabledFlags(s.manifest);
        TurnFiles(h, s, n, EntryFor(entries, n), n !in unsaved);
        ReconciledKeepsFlags(s.manifest, EntryFor(entries, n), s.plugins[n].def.meta, n !in unsaved);
        if outcome == Completed {
          RestoringKeepsFlags(h, t, rest, entries, unsaved);
        }
      } else {
        RestoringKeepsFlags(h, s, rest, entries, unsaved);
      }
    }
  }

  /** A boot never changes which plugins are stored as enabled, nor any stored
      configuration: a plugin it has to skip stays marked for the next boot. */
  lemma BootKeepsFlags(h: Host, s: System, unsaved: set<string>)
    requires Named(s.plugins) && s.manifest.Valid()
    ensures var t := Booted(h, s, unsaved).0;
      && t.manifest.Valid() && EnabledFlags(t.manifest) == EnabledFlags(s.manifest) && t.configs == s.configs
      && SameDefs(s.plugins, t.plugins)
  {
    PendingOrder(h, s);
    var es := EnabledEntries(s.manifest, s.configs, s.manifest.keys);
    RestoringKeepsFlags(h, s, OrderOf(h.pk, PendingList(s)), KnownEntries(s.plugins, es), unsaved);
  }

  // ---- Steps and runs ----------------------------------------------------------------

  datatype Step =
    | Discover(def: PluginDef)
    | SetConfig(name: string, key: string, value: string)
    | Enable(name: string, fault: Fault)
    | CliEnable(name: string, fault: Fault)
    | Disable(name: string, fault: Fault)
    | BootAgain(unsaved: set<string>)
    | Restart(unsaved: set<string>)

  predicate Readable(s: System)
  {
    Elems(s.manifest.keys) <= s.manifest.info.Keys
  }

  function Next(h: Host, s: System, step: Step): System
    requires Readable(s)
  {
    match step
    case Discover(def) => DiscoveredPlugin(s, def).0
    case SetConfig(name, key, value) => Configured(s, name, key, value)
    case Enable(name, fault) => EnabledPlugin(h, s, name, fault).0
    case CliEnable(name, fault) => CliEnabled(h, s, name, fault).0
    case Disable(name, fault) => DisabledPlugin(s, name, fault).0
    case BootAgain(unsaved) => Booted(h, s, unsaved).0
    case Restart(unsaved) => Booted(h, Restarted(s), unsaved).0
  }

  /** `states` is a run: it starts in `s` and takes the steps one by one. */
  ghost predicate IsRun(h: Host, s: System, steps: seq<Step>, states: seq<System>)
  {
    && |states| == |steps| + 1 && states[0] == s
    && forall i {:trigger steps[i]} :: 0 <= i < |steps| ==> Readable(states[i]) && states[i + 1] == Next(h, states[i], steps[i])
  }

  /** Names and files are in order, whatever is enabled. */
  ghost predicate WellFormedSystem(s: System)
  {
    s.manifest.Valid() && Named(s.plugins)
  }

  /** A disable that its target or the target's hook would let through finds the name held. */
  ghost predicate Holds(h: Host, s: System, step: Step)
  {
    step.Disable? && step.name in EnabledNames(s.plugins) && s.plugins[step.name].def.disableHookOk ==> Held(h.pk, s.plugins, step.name)
  }

  lemma DiscoverKeepsConsistent(h: Host, s: System, def: PluginDef)
    requires Consistent(h, s.plugins)
    ensures Consistent(h, DiscoveredPlugin(s, def).0.plugins)
  {
    if def.meta.name !in s.plugins {
      assert SameEnabled(s.plugins, DiscoveredPlugin(s, def).0.plugins);
      SameEnabledKeepsConsistent(h, s.plugins, DiscoveredPlugin(s, def).0.plugins);
    }
  }

  lemma RestartedIsConsistent(h: Host, s: System)
    requires Named(s.plugins)
    ensures Consistent(h, Restarted(s).plugins) && EnabledNames(Restarted(s).plugins) == {}
  {
    assert EnabledGraph(h.pk, Restarted(s).plugins).Keys == {};
  }

  lemma RestartIsConsistent(h: Host, s: System, unsaved: set<string>)
    requires WellFormedSystem(s)
    ensures Consistent(h, Booted(h, Restarted(s), unsaved).0.plugins)
  {
    RestartedIsConsistent(h, s);
    BootKeepsConsistent(h, Restarted(s), unsaved);
  }

  lemma ConfiguringKeepsConsistent(h: Host, s: System, name: string, key: string, value: string)
    requires Consistent(h, s.plugins)
    ensures Consistent(h, Configured(s, name, key, value).plugins)
  {
    var ps := Configured(s, name, key, value).plugins;
    assert SameEnabled(s.plugins, ps);
    SameEnabledKeepsConsistent(h, s.plugins, ps);
  }

  ghost predicate AtMostOneSave(m: Manifest, m': Manifest)
  {
    m' == m || exists n, e, v :: m' == Saved(m, n, e, v)
  }

  lemma EnableShape(h: Host, s: System, name: string, fault: Fault)
    ensures SameDefs(s.plugins, EnabledPlugin(h, s, name, fault).0.plugins)
    ensures AtMostOneSave(s.manifest, EnabledPlugin(h, s, name, fault).0.manifest)
  {
  }

  lemma CliEnableShape(h: Host, s: System, name: string, fault: Fault)
    ensures SameDefs(s.plugins, CliEnabled(h, s, name, fault).0.plugins)
    ensures AtMostOneSave(s.manifest, CliEnabled(h, s, name, fault).0.manifest)
  {
    if name in s.plugins && s.plugins[name].status == Disabled {
      EnableShape(h, s.(plugins := WithStatus(s.plugins, name, Initialized)), name, fault);
    } else {
      EnableShape(h, s, name, fault);
    }
  }

  lemma DisableShape(s: System, name: string, fault: Fault)
    ensures SameDefs(s.plugins, DisabledPlugin(s, name, fault).0.plugins)
    ensures AtMostOneSave(s.manifest, DisabledPlugin(s, name, fault).0.manifest)
  {
  }

  /** The registry after an operation has the same definitions, and the manifest
      is either untouched or the result of one save. */
  lemma OperationShape(h: Host, s: System, step: Step)
    requires Readable(s) && (step.Enable? || step.CliEnable? || step.Disable?)
    ensures SameDefs(s.plugins, Next(h, s, step).plugins)
    ensures AtMostOneSave(s.manifest, Next(h, s, step).manifest)
  {
    match step
    case Enable(name, fault) => EnableShape(h, s, name, fault);
    case Disable(name, fault) => DisableShape(s, name, fault);
    case CliEnable(name, fault) => CliEnableShape(h, s, name, fault);
    case _ =>
  }

  lemma OperationKeepsManifestValid(h: Host, s: System, step: Step)
    requires s.manifest.Valid() && (step.Enable? || step.CliEnable? || step.Disable?)
    ensures Next(h, s, step).manifest.Valid()
  {
    OperationShape(h, s, step);
    if Next(h, s, step).manifest != s.manifest {
      var n, e, v :| Next(h, s, step).manifest == Saved(s.manifest, n, e, v);
      SavedIsValid(s.manifest, n, e, v);
    }
  }

  lemma StepKeepsWellFormed(h: Host, s: System, step: Step)
    requires WellFormedSystem(s)
    ensures WellFormedSystem(Next(h, s, step))
  {
    match step
    case Discover(_) =>
    case SetConfig(_, _, _) =>
    case BootAgain(unsaved) => BootKeepsFlags(h, s, unsaved);
    case Restart(unsaved) => BootKeepsFlags(h, Restarted(s), unsaved);
    case _ =>
      OperationShape(h, s, step);
      OperationKeepsManifestValid(h, s, step);
  }

  /** One step, whichever save fails, keeps the enabled plugins closed under their
      dependencies, in range, licensed and otherwise gated, and free of dependency
      cycles, if and only if it is no disable of a name that is not held. */
  lemma StepConsistentIff(h: Host, s: System, step: Step)
    requires s.manifest.Valid() && Consistent(h, s.plugins)
    ensures Consistent(h, Next(h, s, step).plugins) <==> Holds(h, s, step)
  {
    match step
    case Discover(def) =>
      DiscoverKeepsConsistent(h, s, def);
    case SetConfig(name, key, value) =>
      ConfiguringKeepsConsistent(h, s, name, key, value);
    case Enable(name, fault) =>
      EnableKeepsConsistent(h, s, name, fault);
    case CliEnable(name, fault) =>
      CliEnableKeepsConsistent(h, s, name, fault);
    case Disable(name, fault) =>
      DisableKeepsConsistentIff(h, s, name, fault);
    case BootAgain(unsaved) =>
      BootKeepsConsistent(h, s, unsaved);
    case Restart(unsaved) =>
      RestartIsConsistent(h, s, unsaved);
  }

  lemma {:induction false} RunKeepsWellFormed(h: Host, s: System, steps: seq<Step>, states: seq<System>, n: nat)
    requires WellFormedSystem(s) && IsRun(h, s, steps, states) && n < |states|
    ensures WellFormedSystem(states[n])
  {
    if n > 0 {
      RunKeepsWellFormed(h, s, steps, states, n - 1);
      assert states[(n - 1) + 1] == Next(h, states[n - 1], steps[n - 1]);
      StepKeepsWellFormed(h, states[n - 1], steps[n - 1]);
    }
  }

  lemma {:induction false} HeldRunStaysConsistent(h: Host, s: System, steps: seq<Step>, states: seq<System>, n: nat)
    requires s.manifest.Valid() && Consistent(h, s.plugins) && IsRun(h, s, steps, states) && n < |states|
    requires forall i :: 0 <= i < n ==> Holds(h, states[i], steps[i])
    ensures Consistent(h, states[n].plugins)
  {
    if n > 0 {
      HeldRunStaysConsistent(h, s, steps, states, n - 1);
      assert Holds(h, states[n - 1], steps[n - 1]);
      RunStepConsistentIff(h, s, steps, states, n - 1);
    }
  }

  lemma RunStepConsistentIff(h: Host, s: System, steps: seq<Step>, states: seq<System>, n: nat)
    requires WellFormedSystem(s) && IsRun(h, s, steps, states) && n < |steps| && Consistent(h, states[n].plugins)
    ensures Consistent(h, states[n + 1].plugins) <==> Holds(h, states[n], steps[n])
  {
    RunKeepsWellFormed(h, s, steps, states, n);
    assert states[n + 1] == Next(h, states[n], steps[n]);
    StepConsistentIff(h, states[n], steps[n]);
  }

  /** Safety over whole runs, for any dependencies: from a consistent state, every
      state of a run is consistent if and only if no disable in it goes for a name
      that an enabled plugin needs and none lists bare. */
  lemma RunConsistentIff(h: Host, s: System, steps: seq<Step>, states: seq<System>)
    requires s.manifest.Valid() && Consistent(h, s.plugins) && IsRun(h, s, steps, states)
    ensures (forall i :: 0 <= i < |states| ==> Consistent(h, states[i].plugins))
       <==> (forall i :: 0 <= i < |steps| ==> Holds(h, states[i], steps[i]))
  {
    if forall i :: 0 <= i < |steps| ==> Holds(h, states[i], steps[i]) {
      forall i | 0 <= i < |states| ensures Consistent(h, states[i].plugins) { HeldRunStaysConsistent(h, s, steps, states, i); }
    }
    if forall i :: 0 <= i < |states| ==> Consistent(h, states[i].plugins) {
      forall i | 0 <= i < |steps| ensures Holds(h, states[i], steps[i]) {
        assert Consistent(h, states[i].plugins) && Consistent(h, states[i + 1].plugins);
        RunStepConsistentIff(h, s, steps, states, i);
      }
    }
  }

  // ---- Plugins that list what they need bare ------------------------------------------

  /** A fresh installation: nothing registered, nothing stored. */
  function Empty(): System
  {
    System(map[], Manifest([], map[]), map[])
  }

  /** What a step can do to the plugins' definitions. */
  lemma StepKeepsDefs(h: Host, s: System, step: Step, n: string)
    requires WellFormedSystem(s) && n in Next(h, s, step).plugins
    ensures var def := Next(h, s, step).plugins[n].def;
      (n in s.plugins && def == s.plugins[n].def) || (step.Discover? && def == step.def)
  {
    match step
    case Discover(_) =>
    case SetConfig(_, _, _) =>
    case BootAgain(unsaved) => BootKeepsFlags(h, s, unsaved);
    case Restart(unsaved) => BootKeepsFlags(h, Restarted(s), unsaved);
    case _ => OperationShape(h, s, step);
  }

  lemma {:induction false} BareRunStaysBare(h: Host, steps: seq<Step>, states: seq<System>, n: nat)
    requires IsRun(h, Empty(), steps, states) && n < |states|
    requires forall i :: 0 <= i < |steps| && steps[i].Discover? ==> ListsNeedsBare(h.pk, steps[i].def)
    ensures forall m :: m in states[n].plugins ==> ListsNeedsBare(h.pk, states[n].plugins[m].def)
  {
    if n > 0 {
      BareRunStaysBare(h, steps, states, n - 1);
      RunKeepsWellFormed(h, Empty(), steps, states, n - 1);
      assert states[(n - 1) + 1] == Next(h, states[n - 1], steps[n - 1]);
      StepStaysBare(h, states[n - 1], steps[n - 1]);
    }
  }

  lemma StepStaysBare(h: Host, s: System, step: Step)
    requires WellFormedSystem(s) && forall m :: m in s.plugins ==> ListsNeedsBare(h.pk, s.plugins[m].def)
    requires step.Discover? ==> ListsNeedsBare(h.pk, step.def)
    ensures forall m :: m in Next(h, s, step).plugins ==> ListsNeedsBare(h.pk, Next(h, s, step).plugins[m].def)
  {
    var t := Next(h, s, step);
    forall m | m in t.plugins ensures ListsNeedsBare(h.pk, t.plugins[m].def) { StepKeepsDefs(h, s, step, m); }
  }

  /** Where every plugin lists what it needs bare, every disable of every run from a
      fresh installation finds its name held. */
  lemma BareRunHolds(h: Host, steps: seq<Step>, states: seq<System>, n: nat)
    requires IsRun(h, Empty(), steps, states) && n < |steps|
    requires forall i :: 0 <= i < |steps| && steps[i].Discover? ==> ListsNeedsBare(h.pk, steps[i].def)
    ensures Holds(h, states[n], steps[n])
  {
    BareRunStaysBare(h, steps, states, n);
    if steps[n].Disable? { BareNamesAreHeld(h.pk, states[n].plugins, steps[n].name); }
  }

  // ---- A run that a ranged dependency breaks -----------------------------------------

  function PluginOf(name: string, version: string, dependencies: seq<string>): PluginDef
  {
    PluginDef(Metadata(name, version, dependencies), false, [], true, true, true)
  }

  /** A plugin and one that depends on it, both enabled. */
  function EnabledPair(base: string, version: string, dependent: string, raw: string): Registry
  {
    map[base := PluginState(PluginOf(base, version, []), Enabled, map[]),
        dependent := PluginState(PluginOf(dependent, version, [raw]), Enabled, map[])]
  }

  lemma PairNeeds(pk: Packaging, base: string, version: string, dependent: string, raw: string, req: Requirement)
    requires base != dependent && Parse(pk, raw) == Some(req) && req.name == base
    ensures NeedsOf(pk, PluginOf(base, version, [])) == {}
    ensures NeedsOf(pk, PluginOf(dependent, version, [raw])) == {base}
  {
    var def := PluginOf(dependent, version, [raw]);
    assert def.meta.dependencies[0] == raw;
    forall n ensures n in NeedsOf(pk, def) <==> n == base {
      if n == base { assert 0 <= 0 < |def.meta.dependencies| && Parse(pk, def.meta.dependencies[0]).value.name == n; }
    }
  }

  lemma ExtendRun(h: Host, s: System, steps: seq<Step>, states: seq<System>, step: Step) returns (steps': seq<Step>, states': seq<System>)
    requires IsRun(h, s, steps, states) && Readable(states[|steps|])
    ensures IsRun(h, s, steps', states')
    ensures steps' == steps + [step] && states' == states + [Next(h, states[|steps|], step)]
  {
    steps', states' := steps + [step], states + [Next(h, states[|steps|], step)];
    forall i | 0 <= i < |steps'| ensures Readable(states'[i]) && states'[i + 1] == Next(h, states'[i], steps'[i]) {
      if i < |steps| { assert steps[i] == steps'[i] && states[i + 1] == states'[i + 1]; }
    }
  }

  lemma EnableSucceeds(h: Host, s: System, name: string)
    requires name in s.plugins && s.plugins[name].status == Initialized && s.manifest.Valid()
    requires Gated(h, s.plugins[name].def) && AllSatisfied(h.pk, s.plugins, s.plugins[name].def)
    ensures EnabledPlugin(h, s, name, NoFault).0.plugins == WithStatus(s.plugins, name, Enabled)
    ensures EnabledPlugin(h, s, name, NoFault).0.manifest.Valid()
  {
    CheckMeaning(h.pk, s.plugins, s.plugins[name].def.meta.dependencies);
    SavedIsValid(s.manifest, name, true, Some(s.plugins[name].def.meta.version));
  }

  function DiscoveredPair(base: string, version: string, dependent: string, raw: string): Registry
  {
    map[base := PluginState(PluginOf(base, version, []), Initialized, map[]),
        dependent := PluginState(PluginOf(dependent, version, [raw]), Initialized, map[])]
  }

  lemma ReachesDiscoveredPair(h: Host, base: string, version: string, dependent: string, raw: string)
    returns (steps: seq<Step>, states: seq<System>)
    requires base != dependent
    ensures IsRun(h, Empty(), steps, states) && forall i :: 0 <= i < |steps| ==> !steps[i].Disable?
    ensures states[|steps|] == Empty().(plugins := DiscoveredPair(base, version, dependent, raw))
  {
    steps, states := [], [Empty()];
    steps, states := ExtendRun(h, Empty(), steps, states, Discover(PluginOf(base, version, [])));
    steps, states := ExtendRun(h, Empty(), steps, states, Discover(PluginOf(dependent, version, [raw])));
  }

  function HalfEnabledPair(base: string, version: string, dependent: string, raw: string): Registry
  {
    map[base := PluginState(PluginOf(base, version, []), Enabled, map[]),
        dependent := PluginState(PluginOf(dependent, version, [raw]), Initialized, map[])]
  }

  lemma BaseIsEnabled(h: Host, s: System, base: string, version: string, dependent: string, raw: string)
    requires base != dependent && s.plugins == DiscoveredPair(base, version, dependent, raw) && s.manifest.Valid()
    ensures var t := EnabledPlugin(h, s, base, NoFault).0;
      t.manifest.Valid() && t.plugins == HalfEnabledPair(base, version, dependent, raw)
  {
    EnableSucceeds(h, s, base);
  }

  lemma DependentIsEnabled(h: Host, s: System, base: string, version: string, dependent: string, raw: string, req: Requirement)
    requires base != dependent && Parse(h.pk, raw) == Some(req) && req.name == base && req.SatisfiedBy(h.pk, version)
    requires s.plugins == HalfEnabledPair(base, version, dependent, raw) && s.manifest.Valid()
    ensures var t := EnabledPlugin(h, s, dependent, NoFault).0;
      t.manifest.Valid() && t.plugins == EnabledPair(base, version, dependent, raw)
  {
    assert Satisfied(h.pk, s.plugins, raw);
    EnableSucceeds(h, s, dependent);
  }

  /** From a fresh installation, discovering and enabling the two plugins. */
  lemma ReachesPair(h: Host, base: string, version: string, dependent: string, raw: string, req: Requirement)
    returns (steps: seq<Step>, states: seq<System>)
    requires base != dependent && Parse(h.pk, raw) == Some(req) && req.name == base && req.SatisfiedBy(h.pk, version)
    ensures IsRun(h, Empty(), steps, states) && forall i :: 0 <= i < |steps| ==> !steps[i].Disable?
    ensures states[|steps|].plugins == EnabledPair(base, version, dependent, raw) && states[|steps|].manifest.Valid()
  {
    steps, states := ReachesDiscoveredPair(h, base, version, dependent, raw);
    BaseIsEnabled(h, states[|steps|], base, version, dependent, raw);
    steps, states := ExtendRun(h, Empty(), steps, states, Enable(base, NoFault));
    DependentIsEnabled(h, states[|steps|], base, version, dependent, raw, req);
    steps, states := ExtendRun(h, Empty(), steps, states, Enable(dependent, NoFault));
  }

  lemma BaseIsNotHeld(pk: Packaging, base: string, version: string, dependent: string, raw: string, req: Requirement)
    requires base != dependent && Parse(pk, raw) == Some(req) && req.name == base && raw != base
    ensures !Held(pk, EnabledPair(base, version, dependent, raw), base)
  {
    var ps := EnabledPair(base, version, dependent, raw);
    PairNeeds(pk, base, version, dependent, raw, req);
    assert dependent in EnabledNames(ps) && base in NeedsOf(pk, ps[dependent].def);
    assert Dependents(ps, base) == {};
  }

  lemma BaseIsDisabled(s: System, base: string, version: string, dependent: string, raw: string, fault: Fault)
    requires base != dependent && raw != base && s.plugins == EnabledPair(base, version, dependent, raw)
    ensures EnabledNames(DisabledPlugin(s, base, fault).0.plugins) == {dependent}
  {
    assert Dependents(s.plugins, base) == {};
    assert DisabledPlugin(s, base, fault).0.plugins == WithStatus(s.plugins, base, Disabled);
  }

  lemma PairBreaks(h: Host, s: System, base: string, version: string, dependent: string, raw: string, req: Requirement, fault: Fault)
    requires base != dependent && Parse(h.pk, raw) == Some(req) && req.name == base && raw != base
    requires s.plugins == EnabledPair(base, version, dependent, raw) && Consistent(h, s.plugins)
    ensures var t := DisabledPlugin(s, base, fault).0; EnabledNames(t.plugins) == {dependent} && !Consistent(h, t.plugins)
  {
    BaseIsNotHeld(h.pk, base, version, dependent, raw, req);
    DisableKeepsConsistentIff(h, s, base, fault);
    BaseIsDisabled(s, base, version, dependent, raw, fault);
  }

  lemma EmptyIsConsistent(h: Host)
    ensures Consistent(h, Empty().plugins) && Empty().manifest.Valid()
  {
    assert EnabledGraph(h.pk, Empty().plugins).Keys == {};
  }

  lemma ConsistentWithoutDisable(h: Host, steps: seq<Step>, states: seq<System>)
    requires IsRun(h, Empty(), steps, states) && forall i :: 0 <= i < |steps| ==> !steps[i].Disable?
    ensures forall i :: 0 <= i < |states| ==> Consistent(h, states[i].plugins)
  {
    EmptyIsConsistent(h);
    forall i | 0 <= i < |states| ensures Consistent(h, states[i].plugins) { HeldRunStaysConsistent(h, Empty(), steps, states, i); }
  }

  lemma ReachesConsistentPair(h: Host, base: string, version: string, dependent: string, raw: string, req: Requirement)
    returns (steps: seq<Step>, states: seq<System>)
    requires base != dependent && Parse(h.pk, raw) == Some(req) && req.name == base && req.SatisfiedBy(h.pk, version)
    ensures IsRun(h, Empty(), steps, states)
    ensures forall i :: 0 <= i < |states| ==> Consistent(h, states[i].plugins)
    ensures states[|steps|].plugins == EnabledPair(base, version, dependent, raw) && Readable(states[|steps|])
  {
    steps, states := ReachesPair(h, base, version, dependent, raw, req);
    ConsistentWithoutDisable(h, steps, states);
  }

  /** Whatever the names and the range: a dependent that writes its dependency in any
      other way than as the bare name does not hold it. A run from a fresh
      installation, consistent until then, ends with a disable that goes through and
      leaves the dependent enabled without what it needs. */
  lemma RangedDependencyDoesNotHold(h: Host, base: string, version: string, dependent: string, raw: string, req: Requirement, fault: Fault)
    returns (steps: seq<Step>, states: seq<System>)
    requires base != dependent && Parse(h.pk, raw) == Some(req) && req.name == base && req.SatisfiedBy(h.pk, version)
    requires raw != base
    ensures IsRun(h, Empty(), steps, states) && |steps| > 0 && steps[|steps| - 1] == Disable(base, fault)
    ensures forall i :: 0 <= i < |steps| ==> Consistent(h, states[i].plugins)
    ensures EnabledNames(states[|steps|].plugins) == {dependent} && !Consistent(h, states[|steps|].plugins)
  {
    steps, states := ReachesConsistentPair(h, base, version, dependent, raw, req);
    PairBreaks(h, states[|steps|], base, version, dependent, raw, req, fault);
    var before := states;
    steps, states := ExtendRun(h, Empty(), steps, states, Disable(base, fault));
    AllButLast(h, before, states);
  }

  lemma AllButLast(h: Host, before: seq<System>, after: seq<System>)
    requires |after| == |before| + 1 && after[..|before|] == before
    requires forall i :: 0 <= i < |before| ==> Consistent(h, before[i].plugins)
    ensures forall i :: 0 <= i < |before| ==> Consistent(h, after[i].plugins)
  {
    forall i | 0 <= i < |before| ensures Consistent(h, after[i].plugins) { assert after[..|before|][i] == before[i]; }
  }
}
