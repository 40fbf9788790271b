/** The plugin manager as the objects it is made of; every method is proved
    against the lifecycle on values. */
module PluginManager {
  import opened Versioning
  import opened DependencyResolver
  import opened ConfigStore
  import opened Lifecycle
  import opened Operations

  class Plugin {
    const def: PluginDef
    var status: Status
    var config: Config

    constructor (def: PluginDef)
      ensures this.def == def && status == Status.Discovered && config == map[]
    {
      this.def := def;
      status, config := Status.Discovered, map[];
    }

    function State(): PluginState
      reads this
    {
      PluginState(def, status, config)
    }

    /** Any status becomes initialized; an empty configuration is not taken over. */
    method Initialize(config: Option<Config>)
      modifies this
      ensures status == Initialized
      ensures this.config == if config.Some? && config.value != map[] then config.value else old(this.config)
    {
      if config.Some? && config.value != map[] {
        this.config := config.value;
      }
      status := Initialized;
    }

    method Enable() returns (outcome: Outcome)
      modifies this`status
      ensures outcome == if old(status) != Initialized then WrongStatus else if !def.enableHookOk then HookFailed else Done
      ensures status == if outcome == Done then Enabled else old(status)
    {
      if status != Initialized {
        return WrongStatus;
      }
      if !def.enableHookOk {
        return HookFailed;
      }
      status := Enabled;
      return Done;
    }

    method Disable() returns (outcome: Outcome)
      modifies this`status
      ensures outcome == if old(status) != Enabled then WrongStatus else if !def.disableHookOk then HookFailed else Done
      ensures status == if outcome == Done then Disabled else old(status)
    {
      if status != Enabled {
        return WrongStatus;
      }
      if !def.disableHookOk {
        return HookFailed;
      }
      status := Disabled;
      return Done;
    }
  }

  class PluginManager {
    var plugins: map<string, Plugin>
    const store: JsonFilePluginConfigStore
    const host: Host

    ghost predicate Valid()
      reads this, plugins.Values, store
    {
      && (forall n :: n in plugins ==> plugins[n].def.meta.name == n)
      && store.manifest.Valid()
    }

    constructor (store: JsonFilePluginConfigStore, host: Host)
      requires store.manifest.Valid()
      ensures Valid() && plugins == map[] && this.store == store && this.host == host
      ensures View() == System(map[], store.manifest, store.configs)
    {
      this.plugins, this.store, this.host := map[], store, host;
    }

    function Snapshot(): Registry
      reads this, plugins.Values
    {
      map n | n in plugins :: plugins[n].State()
    }

    ghost function View(): System
      reads this, plugins.Values, store
    {
      System(Snapshot(), store.manifest, store.configs)
    }

    method RegisterPlugin(plugin: Plugin) returns (outcome: Outcome)
      requires Valid()
      modifies this
      ensures Valid()
      ensures plugins == if outcome == Done then old(plugins)[plugin.def.meta.name := plugin] else old(plugins)
      ensures outcome == if plugin.def.meta.name in old(plugins) then AlreadyRegistered else Done
    {
      var name := plugin.def.meta.name;
      if name in plugins {
        return AlreadyRegistered;
      }
      plugins := plugins[name := plugin];
      return Done;
    }

    /** Discovery of one plugin class: instantiate, register, initialize. */
    method Discover(def: PluginDef) returns (outcome: Outcome)
      requires Valid()
      modifies this
      ensures Valid()
      ensures (View(), outcome) == DiscoveredPlugin(old(View()), def)
    {
      if def.meta.name in plugins {
        return AlreadyRegistered;
      }
      var instance := new Plugin(def);
      outcome := RegisterPlugin(instance);
      instance.Initialize(None);
      assert Snapshot() == DiscoveredPlugin(old(View()), def).0.plugins;
    }

    method CheckLicense(plugin: Plugin) returns (ok: bool)
      ensures ok <==> Licensed(host, plugin.def)
    {
      if !plugin.def.requiresLicense {
        return true;
      }
      ok := false;
      if host.license.Some? {
        var features := plugin.def.licensedFeatures;
        for i := 0 to |features|
          invariant !ok && forall k :: 0 <= k < i ==> !host.license.value(features[k])
        {
          if host.license.value(features[i]) {
            return true;
          }
        }
      }
    }

    /** The gates of `enable_plugin`. */
    method PassGates(plugin: Plugin) returns (outcome: Outcome)
      ensures outcome == Gate(host, Snapshot(), plugin.def)
    {
      if !plugin.def.environmentOk {
        return EnvironmentInvalid;
      }
      var check := Check(host.pk, plugin.def.meta, Snapshot());
      if check != Met {
        return DependencyUnmet(check);
      }
      var licensed := CheckLicense(plugin);
      if !licensed {
        return Unlicensed;
      }
      return Done;
    }

    /** Enables one registered plugin. */
    method TurnOn(name: string) returns (outcome: Outcome)
      requires Valid() && name in plugins
      modifies plugins.Values
      ensures Valid()
      ensures var p := old(Snapshot())[name];
              outcome == if p.status != Initialized then WrongStatus else if !p.def.enableHookOk then HookFailed else Done
      ensures Snapshot() == if outcome == Done then WithStatus(old(Snapshot()), name, Enabled) else old(Snapshot())
    {
      outcome := plugins[name].Enable();
      assert Snapshot() == if outcome == Done then WithStatus(old(Snapshot()), name, Enabled) else old(Snapshot());
    }

    /** Disables one registered plugin. */
    method TurnOff(name: string) returns (outcome: Outcome)
      requires Valid() && name in plugins
      modifies plugins.Values
      ensures Valid()
      ensures var p := old(Snapshot())[name];
              outcome == if p.status != Enabled then WrongStatus else if !p.def.disableHookOk then HookFailed else Done
      ensures Snapshot() == if outcome == Done then WithStatus(old(Snapshot()), name, Disabled) else old(Snapshot())
    {
      outcome := plugins[name].Disable();
      assert Snapshot() == if outcome == Done then WithStatus(old(Snapshot()), name, Disabled) else old(Snapshot());
    }

    /** Writes one plugin's state to the store; a failed save is only logged. */
    method PersistState(name: string, enabled: bool, fault: Fault)
      requires Valid() && name in plugins
      modifies store
      ensures Valid()
      ensures View() == Persist(old(View()), name, enabled, fault)
      ensures Recorded(old(View()), View(), name, enabled, fault)
    {
      var plugin := plugins[name];
      SavedIsValid(store.manifest, name, enabled, Some(plugin.def.meta.version));
      var _ := store.Save(name, enabled, Some(plugin.config), Some(plugin.def.meta.version), fault);
      assert Snapshot() == old(Snapshot());
      PersistRecords(old(View()), name, enabled, fault);
    }

    method EnablePlugin(name: string, fault: Fault) returns (outcome: Outcome)
      requires Valid()
      modifies plugins.Values, store
      ensures Valid()
      ensures (View(), outcome) == EnabledPlugin(host, old(View()), name, fault)
      ensures outcome == Done ==> Recorded(old(View()), View(), name, true, fault)
    {
      if name !in plugins {
        return NotFound;
      }
      var plugin := plugins[name];
      outcome := PassGates(plugin);
      if outcome != Done {
        return;
      }
      outcome := TurnOn(name);
      if outcome != Done {
        return;
      }
      PersistState(name, true, fault);
      EnableMeaning(host, old(View()), name, fault);
    }

    /** The command-line enable. */
    method CliEnable(name: string, fault: Fault) returns (outcome: Outcome)
      requires Valid()
      modifies plugins.Values, store
      ensures Valid()
      ensures (View(), outcome) == CliEnabled(host, old(View()), name, fault)
    {
      if name !in plugins {
        return NotFound;
      }
      if plugins[name].status == Enabled {
        return Done;
      }
      if plugins[name].status == Disabled {
        plugins[name].status := Initialized;
        assert Snapshot() == WithStatus(old(Snapshot()), name, Initialized);
      }
      outcome := EnablePlugin(name, fault);
    }

    method DisablePlugin(name: string, fault: Fault) returns (outcome: Outcome)
      requires Valid()
      modifies plugins.Values, store
      ensures Valid()
      ensures (View(), outcome) == DisabledPlugin(old(View()), name, fault)
      ensures outcome == Done ==> Recorded(old(View()), View(), name, false, fault)
    {
      if name !in plugins {
        return NotFound;
      }
      var plugin := plugins[name];
      var dependents := set n | n in plugins && name in plugins[n].def.meta.dependencies && plugins[n].status == Enabled;
      assert dependents == Dependents(Snapshot(), name);
      if dependents != {} {
        return HasDependents;
      }
      outcome := TurnOff(name);
      if outcome != Done {
        return;
      }
      PersistState(name, false, fault);
      DisableMeaning(old(View()), name, fault);
    }

    method ReconcileVersionPin(plugin: Plugin, entry: Option<Entry>, saveOk: bool)
      requires store.manifest.Valid()
      modifies store
      ensures store.manifest == Reconciled(old(store.manifest), entry, plugin.def.meta, saveOk)
      ensures store.configs == old(store.configs) && store.manifest.Valid()
    {
      if entry == None || entry.value.version == None || entry.value.version.value == "" {
        return;
      }
      if entry.value.version.value == plugin.def.meta.version {
        return;
      }
      SavedIsValid(store.manifest, plugin.def.meta.name, true, Some(plugin.def.meta.version));
      var _ := store.Save(plugin.def.meta.name, true, None, Some(plugin.def.meta.version),
                          if saveOk then NoFault else ManifestFault);
    }

    /** The gates of the boot, and the enabling behind them. */
    method EnableIfGated(name: string) returns (outcome: BootOutcome)
      requires Valid() && name in plugins
      modifies plugins.Values
      ensures Valid()
      ensures (Snapshot(), outcome) == EnabledIfGated(host, old(Snapshot()), name)
    {
      var plugin := plugins[name];
      var check := Check(host.pk, plugin.def.meta, Snapshot());
      if check.Malformed? {
        return UnparseableDependency(name);
      }
      if check != Met {
        return Completed;
      }
      var licensed := CheckLicense(plugin);
      if !licensed {
        return Completed;
      }
      var _ := TurnOn(name);
      return Completed;
    }

    /** One turn of the boot's second loop. */
    method Restore(name: string, entry: Option<Entry>, saveOk: bool) returns (outcome: BootOutcome)
      requires Valid() && name in plugins
      modifies plugins.Values, store
      ensures Valid()
      ensures (View(), outcome) == Restored(host, old(View()), name, entry, saveOk)
    {
      var plugin := plugins[name];
      if !plugin.def.environmentOk {
        return EnvironmentFailure(name);
      }
      if entry.Some? && entry.value.config != map[] {
        plugin.Initialize(Some(entry.value.config));
      }
      assert Snapshot() == WithStoredConfig(old(Snapshot()), name, entry);
      ReconcileVersionPin(plugin, entry, saveOk);
      outcome := EnableIfGated(name);
    }

    /** The stored entries of known plugins, and those that wait to be enabled. */
    method CollectPending(entries: seq<Entry>) returns (known: map<string, Entry>, pending: seq<Metadata>)
      ensures known == KnownEntries(Snapshot(), entries)
      ensures pending == PendingPlugins(Snapshot(), entries)
    {
      known, pending := map[], [];
      for i := 0 to |entries|
        invariant known == KnownEntries(Snapshot(), entries[..i])
        invariant pending == PendingPlugins(Snapshot(), entries[..i])
      {
        var entry := entries[i];
        assert entries[..i + 1][..i] == entries[..i];
        if entry.name in plugins {
          known := known[entry.name := entry];
          if plugins[entry.name].status == Initialized {
            pending := pending + [plugins[entry.name].def.meta];
          }
        }
      }
      assert entries[..|entries|] == entries;
    }

    /** The boot's second loop: the sorted names in turn. */
    method RestoreInOrder(order: seq<string>, known: map<string, Entry>, unsaved: set<string>) returns (outcome: BootOutcome)
      requires Valid()
      modifies plugins.Values, store
      ensures Valid()
      ensures (View(), outcome) == RestoredAll(host, old(View()), order, known, unsaved)
    {
      ghost var goal := RestoredAll(host, View(), order, known, unsaved);
      assert order[0..] == order;
      for i := 0 to |order|
        invariant Valid()
        invariant RestoredAll(host, View(), order[i..], known, unsaved) == goal
      {
        var name := order[i];
        assert order[i..][0] == name && order[i..][1..] == order[i + 1..];
        if name in plugins {
          outcome := Restore(name, if name in known then Some(known[name]) else None, name !in unsaved);
          if outcome != Completed {
            return;
          }
        }
      }
      assert order[|order|..] == [];
      outcome := Completed;
    }

    method LoadPersistedState(unsaved: set<string>) returns (outcome: BootOutcome)
      requires Valid()
      modifies plugins.Values, store
      ensures Valid()
      ensures (View(), outcome) == Booted(host, old(View()), unsaved)
    {
      var entries := store.GetEnabled();
      var known, pending := CollectPending(entries);
      var order := EnableOrder(host.pk, pending);
      assert View() == old(View());
      outcome := RestoreInOrder(order, known, unsaved);
    }
  }
}
