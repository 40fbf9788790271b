/** What each operation of the manager does, in plain terms: when it goes through, what
    becomes of the plugin, and what stands on file afterwards. */
module Operations {
  import opened Graphs
  import opened Versioning
  import opened DependencyResolver
  import opened ConfigStore
  import opened Lifecycle
  import opened Boot

  /** Every declared dependency parses and names an enabled plugin in range. */
  ghost predicate DependenciesMet(pk: Packaging, ps: Registry, def: PluginDef)
  {
    forall i :: 0 <= i < |def.meta.dependencies| ==>
      var req := Parse(pk, def.meta.dependencies[i]);
      && req.Some? && req.value.name in ps && ps[req.value.name].status == Enabled
      && (req.value.range == "" || pk.contains(req.value.range, ps[req.value.name].def.meta.version))
  }

  /** No licence is asked for, or one of the declared features is covered. */
  ghost predicate LicenceCovers(h: Host, def: PluginDef)
  {
    !def.requiresLicense
    || (h.license.Some? && exists k :: 0 <= k < |def.licensedFeatures| && h.license.value(def.licensedFeatures[k]))
  }

  ghost predicate OnlyChanges(ps: Registry, ps': Registry, name: string)
  {
    ps'.Keys == ps.Keys && forall n :: n in ps && n != name ==> ps'[n] == ps[n]
  }

  /** The manifest has exactly this entry under the name and is otherwise as before; a new
      name comes last. */
  ghost predicate EntryWritten(m: Manifest, m': Manifest, name: string, entry: PluginInfo)
  {
    && m'.info.Keys == m.info.Keys + {name} && m'.info[name] == entry
    && (forall n :: n in m.info && n != name ==> m'.info[n] == m.info[n])
    && m'.keys == if name in m.info then m.keys else m.keys + [name]
  }

  ghost predicate ConfigWritten(configs: map<string, Config>, configs': map<string, Config>, name: string, config: Config)
  {
    && configs'.Keys == configs.Keys + {name} && configs'[name] == config
    && forall n :: n in configs && n != name ==> configs'[n] == configs[n]
  }

  /** What is on file after persisting a plugin's state: its flag, its own version as the
      pin and its configuration, unless writing failed. A new entry of a plugin without
      a version is pinned "1.0.0". */
  ghost predicate Recorded(s: System, t: System, name: string, flag: bool, fault: Fault)
    requires name in s.plugins
  {
    var p := s.plugins[name];
    var pin := if p.def.meta.version == "" && name !in s.manifest.info then "1.0.0" else p.def.meta.version;
    && (if fault == ManifestFault then t.manifest == s.manifest
        else EntryWritten(s.manifest, t.manifest, name, PluginInfo(flag, Some(pin))))
    && (if fault == NoFault then ConfigWritten(s.configs, t.configs, name, p.config) else t.configs == s.configs)
  }

  lemma PersistRecords(s: System, name: string, flag: bool, fault: Fault)
    requires name in s.plugins
    ensures Recorded(s, Persist(s, name, flag, fault), name, flag, fault)
    ensures Persist(s, name, flag, fault).plugins == s.plugins
  {
  }

  lemma GatesMeaning(h: Host, ps: Registry, def: PluginDef)
    ensures CheckAll(h.pk, ps, def.meta.dependencies) == Met <==> DependenciesMet(h.pk, ps, def)
    ensures Licensed(h, def) <==> LicenceCovers(h, def)
  {
    CheckMeaning(h.pk, ps, def.meta.dependencies);
    forall i | 0 <= i < |def.meta.dependencies|
      ensures Satisfied(h.pk, ps, def.meta.dependencies[i])
         <==> (var req := Parse(h.pk, def.meta.dependencies[i]);
               && req.Some? && req.value.name in ps && ps[req.value.name].status == Enabled
               && (req.value.range == "" || h.pk.contains(req.value.range, ps[req.value.name].def.meta.version)))
    {
    }
    if h.license.Some? && exists f :: f in def.licensedFeatures && h.license.value(f) {
      var f :| f in def.licensedFeatures && h.license.value(f);
      var k :| 0 <= k < |def.licensedFeatures| && def.licensedFeatures[k] == f;
    }
  }

  ghost predicate Enableable(h: Host, ps: Registry, name: string)
  {
    && name in ps && ps[name].def.environmentOk && DependenciesMet(h.pk, ps, ps[name].def)
    && LicenceCovers(h, ps[name].def) && ps[name].def.enableHookOk
  }

  /** Enabling goes through exactly when the plugin is initialized, its environment, its
      dependencies and its licence are in order and its hook succeeds. Then it is enabled,
      nothing else in the registry changes, and the files record it. Otherwise nothing
      changes at all. */
  lemma EnableMeaning(h: Host, s: System, name: string, fault: Fault)
    ensures var (t, outcome) := EnabledPlugin(h, s, name, fault);
      && (outcome == Done <==> Enableable(h, s.plugins, name) && s.plugins[name].status == Initialized)
      && (outcome != Done ==> t == s)
      && (outcome == Done ==>
            && t.plugins.Keys == s.plugins.Keys && t.plugins[name] == s.plugins[name].(status := Enabled)
            && OnlyChanges(s.plugins, t.plugins, name) && Recorded(s, t, name, true, fault))
  {
    if name in s.plugins {
      GatesMeaning(h, s.plugins, s.plugins[name].def);
      PersistRecords(s.(plugins := WithStatus(s.plugins, name, Enabled)), name, true, fault);
    }
  }

  /** The reason given is the first thing that is wrong. */
  lemma EnableRefusals(h: Host, s: System, name: string, fault: Fault)
    ensures var outcome := EnabledPlugin(h, s, name, fault).1;
      && (outcome == NotFound <==> name !in s.plugins)
      && (name in s.plugins ==>
            var p := s.plugins[name];
            && (outcome == EnvironmentInvalid <==> !p.def.environmentOk)
            && (outcome.DependencyUnmet? <==> p.def.environmentOk && !DependenciesMet(h.pk, s.plugins, p.def))
            && (outcome == Unlicensed <==>
                  p.def.environmentOk && DependenciesMet(h.pk, s.plugins, p.def) && !LicenceCovers(h, p.def)))
  {
    if name in s.plugins { GatesMeaning(h, s.plugins, s.plugins[name].def); }
  }

  /** Disabling goes through exactly when the plugin is enabled, no enabled plugin lists
      its bare name and its hook succeeds. The files record it, the configuration
      included; otherwise nothing changes at all. */
  lemma DisableMeaning(s: System, name: string, fault: Fault)
    ensures var (t, outcome) := DisabledPlugin(s, name, fault);
      && (outcome == Done <==>
            && name in s.plugins && s.plugins[name].status == Enabled && s.plugins[name].def.disableHookOk
            && forall n :: n in s.plugins && s.plugins[n].status == Enabled ==> name !in s.plugins[n].def.meta.dependencies)
      && (outcome != Done ==> t == s)
      && (outcome == Done ==>
            && t.plugins.Keys == s.plugins.Keys && t.plugins[name] == s.plugins[name].(status := Disabled)
            && OnlyChanges(s.plugins, t.plugins, name) && Recorded(s, t, name, false, fault))
  {
    if name in s.plugins {
      assert Dependents(s.plugins, name) == {} <==>
        forall n :: n in s.plugins && s.plugins[n].status == Enabled ==> name !in s.plugins[n].def.meta.dependencies by {
        if n :| n in s.plugins && s.plugins[n].status == Enabled && name in s.plugins[n].def.meta.dependencies {
          assert n in Dependents(s.plugins, name);
        }
      }
      PersistRecords(s.(plugins := WithStatus(s.plugins, name, Disabled)), name, false, fault);
    }
  }

  lemma RearmedGates(h: Host, ps: Registry, name: string)
    requires name in ps && ps[name].status == Disabled
    ensures Enableable(h, WithStatus(ps, name, Initialized), name) <==> Enableable(h, ps, name)
  {
    var ps' := WithStatus(ps, name, Initialized);
    forall i | 0 <= i < |ps[name].def.meta.dependencies| && Parse(h.pk, ps[name].def.meta.dependencies[i]).Some?
      ensures var n := Parse(h.pk, ps[name].def.meta.dependencies[i]).value.name;
              n in ps && ps[n].status == Enabled <==> n in ps' && ps'[n].status == Enabled
    {
    }
  }

  function Rearmed(p: PluginState): PluginState
  {
    if p.status == Disabled then p.(status := Initialized) else p
  }

  /** From the command line an enabled plugin is left as it is, and a disabled one can be
      enabled like an initialized one. Whatever the answer, Done means enabled; a
      refusal leaves the files alone and a disabled plugin initialized. */
  lemma CliEnableMeaning(h: Host, s: System, name: string, fault: Fault)
    ensures var (t, outcome) := CliEnabled(h, s, name, fault);
      && (outcome == Done <==>
            name in s.plugins && (s.plugins[name].status == Enabled
                                  || (s.plugins[name].status in {Initialized, Disabled} && Enableable(h, s.plugins, name))))
      && (name in s.plugins && s.plugins[name].status == Enabled ==> t == s)
      && (outcome == Done ==> name in t.plugins && t.plugins[name] == s.plugins[name].(status := Enabled))
      && (outcome == Done && s.plugins[name].status != Enabled ==> Recorded(s, t, name, true, fault))
      && (outcome != Done ==>
            && t.manifest == s.manifest && t.configs == s.configs
            && (name !in s.plugins ==> t == s)
            && (name in s.plugins ==> name in t.plugins && t.plugins[name] == Rearmed(s.plugins[name])))
      && OnlyChanges(s.plugins, t.plugins, name)
  {
    if name in s.plugins && s.plugins[name].status == Disabled {
      RearmedGates(h, s.plugins, name);
      EnableMeaning(h, s.(plugins := WithStatus(s.plugins, name, Initialized)), name, fault);
    } else {
      EnableMeaning(h, s, name, fault);
    }
  }

  /** A new plugin is registered, initialized and without configuration; a known name is
      left alone. No file is touched. */
  lemma DiscoverMeaning(s: System, def: PluginDef)
    ensures var (t, outcome) := DiscoveredPlugin(s, def);
      var name := def.meta.name;
      && t.manifest == s.manifest && t.configs == s.configs
      && (outcome == Done <==> name !in s.plugins)
      && (name in s.plugins ==> t == s)
      && t.plugins.Keys == s.plugins.Keys + {name}
      && (name !in s.plugins ==> t.plugins[name] == PluginState(def, Initialized, map[]))
      && forall n :: n in s.plugins ==> t.plugins[n] == s.plugins[n]
  {
  }

  /** Setting a configuration value changes that value of that plugin in memory, and nothing
      on file. */
  lemma ConfigureMeaning(s: System, name: string, key: string, value: string)
    ensures var t := Configured(s, name, key, value);
      && t.manifest == s.manifest && t.configs == s.configs && OnlyChanges(s.plugins, t.plugins, name)
      && (name in s.plugins ==>
            && t.plugins[name].def == s.plugins[name].def && t.plugins[name].status == s.plugins[name].status
            && ConfigValueSet(s.plugins[name].config, t.plugins[name].config, key, value))
  {
  }

  ghost predicate ConfigValueSet(config: Config, config': Config, key: string, value: string)
  {
    && config'.Keys == config.Keys + {key} && config'[key] == value
    && forall k :: k in config && k != key ==> config'[k] == config[k]
  }

  /** One plugin's turn at boot. Unless its environment is broken, the stored configuration
      is taken over and a stale pin rewritten first; then it is enabled exactly when its
      gates are met. It ends the boot in two ways only, and the answer names it. */
  lemma TurnEffect(h: Host, s: System, name: string, entry: Option<Entry>, saveOk: bool)
    requires Waiting(s.plugins, name) && s.plugins[name].def.meta.name == name && name in s.manifest.info
    ensures var (t, outcome) := Restored(h, s, name, entry, saveOk);
      var p := s.plugins[name];
      && (!p.def.environmentOk ==> t == s && outcome == EnvironmentFailure(name))
      && (p.def.environmentOk ==>
            && outcome == (if Stumbles(h.pk, s.plugins, p.def.meta.dependencies, EnabledNames(s.plugins))
                           then UnparseableDependency(name) else Completed)
            && t.configs == s.configs && OnlyChanges(s.plugins, t.plugins, name) && name in t.plugins
            && t.plugins[name] == PluginState(p.def, if Enableable(h, s.plugins, name) then Enabled else Initialized,
                                              if entry.Some? && entry.value.config != map[] then entry.value.config else p.config)
            && (if entry.Some? && entry.value.version !in {None, Some(""), Some(p.def.meta.version)} && saveOk
                then EntryWritten(s.manifest, t.manifest, name, PluginInfo(true, Some(p.def.meta.version)))
                else t.manifest == s.manifest))
  {
    if s.plugins[name].def.environmentOk {
      TurnInRegistry(h, s, name, entry, saveOk);
      StalePinRewritten(s.manifest, entry, s.plugins[name].def.meta, saveOk);
    }
  }

  lemma StalePinRewritten(m: Manifest, entry: Option<Entry>, meta: Metadata, saveOk: bool)
    requires meta.name in m.info
    ensures var m' := Reconciled(m, entry, meta, saveOk);
      if entry.Some? && entry.value.version !in {None, Some(""), Some(meta.version)} && saveOk
      then EntryWritten(m, m', meta.name, PluginInfo(true, Some(meta.version)))
      else m' == m
  {
    if entry.Some? && entry.value.version !in {None, Some(""), Some(meta.version)} && saveOk {
      assert Reconciled(m, entry, meta, saveOk) == Manifest(m.keys, m.info[meta.name := PluginInfo(true, Some(meta.version))]);
    }
  }

  lemma TurnInRegistry(h: Host, s: System, name: string, entry: Option<Entry>, saveOk: bool)
    requires Waiting(s.plugins, name) && s.plugins[name].def.environmentOk
    ensures var (t, outcome) := Restored(h, s, name, entry, saveOk);
      var p := s.plugins[name];
      && outcome == (if Stumbles(h.pk, s.plugins, p.def.meta.dependencies, EnabledNames(s.plugins))
                     then UnparseableDependency(name) else Completed)
      && t.configs == s.configs && OnlyChanges(s.plugins, t.plugins, name) && name in t.plugins
      && t.manifest == Reconciled(s.manifest, entry, p.def.meta, saveOk)
      && t.plugins[name] == PluginState(p.def, if Enableable(h, s.plugins, name) then Enabled else Initialized,
                                        if entry.Some? && entry.value.config != map[] then entry.value.config else p.config)
  {
    TurnCompletesIff(h, s, name, entry, saveOk);
    TurnGates(h, s.plugins, name, entry);
  }

  lemma TurnGates(h: Host, ps: Registry, name: string, entry: Option<Entry>)
    requires Waiting(ps, name) && ps[name].def.environmentOk
    ensures Enableable(h, ps, name)
       <==> CheckAll(h.pk, WithStoredConfig(ps, name, entry), ps[name].def.meta.dependencies) == Met
            && Licensed(h, ps[name].def) && ps[name].def.enableHookOk
  {
    var mid := WithStoredConfig(ps, name, entry);
    GatesMeaning(h, mid, ps[name].def);
    forall i | 0 <= i < |ps[name].def.meta.dependencies| && Parse(h.pk, ps[name].def.meta.dependencies[i]).Some?
      ensures var n := Parse(h.pk, ps[name].def.meta.dependencies[i]).value.name;
              n in ps && ps[n].status == Enabled <==> n in mid && mid[n].status == Enabled
    {
    }
  }
}
