/** The plugin lifecycle on values: what discovery, enabling, disabling and the
    boot do to the registry and to the persisted state. */
module Lifecycle {
  import opened Graphs
  import opened Versioning
  import opened DependencyResolver
  import opened ConfigStore

  /** What surrounds the manager and does not change: the packaging library and
      the licence context, if there is one. */
  datatype Host = Host(pk: Packaging, license: Option<string -> bool>)

  datatype System = System(plugins: Registry, manifest: Manifest, configs: map<string, Config>)

  /** A free plugin always passes; a licensed one needs a context that covers
      one of the features it declares. */
  predicate Licensed(h: Host, def: PluginDef)
  {
    def.requiresLicense ==> h.license.Some? && exists f :: f in def.licensedFeatures && h.license.value(f)
  }

  datatype Outcome =
    | Done
    | NotFound
    | AlreadyRegistered
    | EnvironmentInvalid
    | DependencyUnmet(result: CheckResult)
    | Unlicensed
    | WrongStatus
    | HookFailed
    | HasDependents

  // ---- The operations -----------------------------------------------------------

  /** Writing one plugin's state, its configuration and its version pin. */
  function Persist(s: System, name: string, enabled: bool, fault: Fault): System
    requires name in s.plugins
  {
    var p := s.plugins[name];
    s.(manifest := if fault == ManifestFault then s.manifest else Saved(s.manifest, name, enabled, Some(p.def.meta.version)),
       configs := if fault == NoFault then s.configs[name := p.config] else s.configs)
  }

  function WithStatus(ps: Registry, name: string, status: Status): Registry
    requires name in ps
  {
    ps[name := ps[name].(status := status)]
  }

  /** Discovery registers a new plugin and initializes it. */
  function DiscoveredPlugin(s: System, def: PluginDef): (System, Outcome)
  {
    if def.meta.name in s.plugins then (s, AlreadyRegistered)
    else (s.(plugins := s.plugins[def.meta.name := PluginState(def, Initialized, map[])]), Done)
  }

  /** Setting one configuration value changes memory only. */
  function Configured(s: System, name: string, key: string, value: string): System
  {
    if name !in s.plugins then s
    else s.(plugins := s.plugins[name := s.plugins[name].(config := s.plugins[name].config[key := value])])
  }

  /** The gates in the order they are tried: environment, dependencies, licence. */
  function Gate(h: Host, ps: Registry, def: PluginDef): Outcome
  {
    if !def.environmentOk then EnvironmentInvalid
    else
      var check := CheckAll(h.pk, ps, def.meta.dependencies);
      if check != Met then DependencyUnmet(check)
      else if !Licensed(h, def) then Unlicensed
      else Done
  }

  function EnabledPlugin(h: Host, s: System, name: string, fault: Fault): (System, Outcome)
  {
    if name !in s.plugins then (s, NotFound)
    else
      var p := s.plugins[name];
      var gate := Gate(h, s.plugins, p.def);
      if gate != Done then (s, gate)
      else if p.status != Initialized then (s, WrongStatus)
      else if !p.def.enableHookOk then (s, HookFailed)
      else (Persist(s.(plugins := WithStatus(s.plugins, name, Enabled)), name, true, fault), Done)
  }

  /** The command line puts a disabled plugin back to initialized and then
      enables it; an enabled plugin is left alone. */
  function CliEnabled(h: Host, s: System, name: string, fault: Fault): (System, Outcome)
  {
    if name !in s.plugins then (s, NotFound)
    else if s.plugins[name].status == Enabled then (s, Done)
    else if s.plugins[name].status == Disabled then
      EnabledPlugin(h, s.(plugins := WithStatus(s.plugins, name, Initialized)), name, fault)
    else EnabledPlugin(h, s, name, fault)
  }

  /** The enabled plugins that list the bare name among their dependencies. */
  function Dependents(ps: Registry, name: string): set<string>
  {
    set n | n in ps && name in ps[n].def.meta.dependencies && ps[n].status == Enabled
  }

  function DisabledPlugin(s: System, name: string, fault: Fault): (System, Outcome)
  {
    if name !in s.plugins then (s, NotFound)
    else if Dependents(s.plugins, name) != {} then (s, HasDependents)
    else if s.plugins[name].status != Enabled then (s, WrongStatus)
    else if !s.plugins[name].def.disableHookOk then (s, HookFailed)
    else (Persist(s.(plugins := WithStatus(s.plugins, name, Disabled)), name, false, fault), Done)
  }

  // ---- The boot -------------------------------------------------------------------

  datatype BootOutcome = Completed | EnvironmentFailure(name: string) | UnparseableDependency(name: string)

  /** The pin of a plugin about to be restored follows its loaded version. */
  function Reconciled(m: Manifest, entry: Option<Entry>, meta: Metadata, saveOk: bool): Manifest
  {
    if entry.Some? && entry.value.version.Some? && entry.value.version.value != ""
      && entry.value.version.value != meta.version && saveOk
    then Saved(m, meta.name, true, Some(meta.version))
    else m
  }

  /** The gates at boot: only an unparseable dependency ends the boot; an unmet
      gate or a failing hook leaves the plugin as it is. */
  function EnabledIfGated(h: Host, ps: Registry, name: string): (Registry, BootOutcome)
    requires name in ps
  {
    var p := ps[name];
    var check := CheckAll(h.pk, ps, p.def.meta.dependencies);
    if check.Malformed? then (ps, UnparseableDependency(name))
    else if check == Met && Licensed(h, p.def) && p.status == Initialized && p.def.enableHookOk
      then (WithStatus(ps, name, Enabled), Completed)
    else (ps, Completed)
  }

  function WithStoredConfig(ps: Registry, name: string, entry: Option<Entry>): Registry
    requires name in ps
  {
    if entry.Some? && entry.value.config != map[]
    then ps[name := ps[name].(config := entry.value.config, status := Initialized)] else ps
  }

  /** One plugin's turn at boot. A broken environment ends the boot. */
  function Restored(h: Host, s: System, name: string, entry: Option<Entry>, saveOk: bool): (System, BootOutcome)
    requires name in s.plugins
  {
    if !s.plugins[name].def.environmentOk then (s, EnvironmentFailure(name))
    else
      var manifest := Reconciled(s.manifest, entry, s.plugins[name].def.meta, saveOk);
      var (ps, outcome) := EnabledIfGated(h, WithStoredConfig(s.plugins, name, entry), name);
      (System(ps, manifest, s.configs), outcome)
  }

  /** The plugins in turn, until one of them ends the boot. */
  function RestoredAll(h: Host, s: System, order: seq<string>, entries: map<string, Entry>, unsaved: set<string>): (System, BootOutcome)
    decreases |order|
  {
    if order == [] then (s, Completed)
    else if order[0] !in s.plugins then RestoredAll(h, s, order[1..], entries, unsaved)
    else
      var n := order[0];
      var (t, outcome) := Restored(h, s, n, if n in entries then Some(entries[n]) else None, n !in unsaved);
      if outcome != Completed then (t, outcome)
      else RestoredAll(h, t, order[1..], entries, unsaved)
  }

  /** The stored entries of registered plugins, by name. */
  function KnownEntries(ps: Registry, entries: seq<Entry>): map<string, Entry>
  {
    if entries == [] then map[]
    else
      var last := entries[|entries| - 1];
      var front := KnownEntries(ps, entries[..|entries| - 1]);
      if last.name in ps then front[last.name := last] else front
  }

  /** The metadata of the stored plugins that wait to be enabled, in stored order. */
  function PendingPlugins(ps: Registry, entries: seq<Entry>): seq<Metadata>
  {
    if entries == [] then []
    else
      var last := entries[|entries| - 1];
      PendingPlugins(ps, entries[..|entries| - 1])
        + if last.name in ps && ps[last.name].status == Initialized then [ps[last.name].def.meta] else []
  }

  /** `load_persisted_state`. `unsaved` are the plugins whose pin cannot be written. */
  function Booted(h: Host, s: System, unsaved: set<string>): (System, BootOutcome)
    requires Elems(s.manifest.keys) <= s.manifest.info.Keys
  {
    var entries := EnabledEntries(s.manifest, s.configs, s.manifest.keys);
    RestoredAll(h, s, OrderOf(h.pk, PendingPlugins(s.plugins, entries)), KnownEntries(s.plugins, entries), unsaved)
  }

  /** A new process: every plugin is discovered afresh, the files stay. */
  function Restarted(s: System): System
  {
    s.(plugins := map n | n in s.plugins :: PluginState(s.plugins[n].def, Initialized, map[]))
  }
}
