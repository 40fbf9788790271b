/** The persisted plugin state: a manifest of enabled flags and version pins,
    and the saved configurations. Both files keep insertion order. */
module ConfigStore {
  import opened Graphs
  import opened Versioning
  import opened DependencyResolver

  datatype PluginInfo = PluginInfo(enabled: bool, version: Option<string>)

  datatype Manifest = Manifest(keys: seq<string>, info: map<string, PluginInfo>)
  {
    ghost predicate Valid()
    {
      Distinct(keys) && Elems(keys) == info.Keys
    }
  }

  datatype Entry = Entry(name: string, enabled: bool, config: Config, version: Option<string>)

  /** Where a save fails, if it does: writing the manifest, or only afterwards
      writing the configurations. */
  datatype Fault = NoFault | ManifestFault | ConfigFault

  /** The manifest `save` writes. A new entry is stamped with the version given,
      or "1.0.0"; an existing pin changes only when a version is given. */
  function Saved(m: Manifest, name: string, enabled: bool, version: Option<string>): Manifest
  {
    if name !in m.info then
      var stamp := if version.Some? && version.value != "" then version else Some("1.0.0");
      Manifest(m.keys + [name], m.info[name := PluginInfo(enabled, stamp)])
    else
      Manifest(m.keys, m.info[name := PluginInfo(enabled, if version.Some? then version else m.info[name].version)])
  }

  function EnabledFlags(m: Manifest): set<string>
  {
    set n | n in m.info && m.info[n].enabled
  }

  function ConfigFor(configs: map<string, Config>, name: string): Config
  {
    if name in configs then configs[name] else map[]
  }

  /** The entries of the enabled plugins, in stored order. */
  function EnabledEntries(m: Manifest, configs: map<string, Config>, keys: seq<string>): (r: seq<Entry>)
    requires Elems(keys) <= m.info.Keys
  {
    if keys == [] then []
    else
      assert keys[|keys| - 1] in Elems(keys) && Elems(keys[..|keys| - 1]) <= Elems(keys);
      var k := keys[|keys| - 1];
      EnabledEntries(m, configs, keys[..|keys| - 1])
        + if m.info[k].enabled then [Entry(k, true, ConfigFor(configs, k), m.info[k].version)] else []
  }

  lemma SavedIsValid(m: Manifest, name: string, enabled: bool, version: Option<string>)
    requires m.Valid()
    ensures Saved(m, name, enabled, version).Valid()
  {
    if name !in m.info {
      forall i | 0 <= i < |m.keys| ensures m.keys[i] != name { assert m.keys[i] in Elems(m.keys); }
      assert Elems(m.keys + [name]) == Elems(m.keys) + {name};
    }
  }

  /** Saving one plugin sets its flag as asked and leaves every other plugin's
      flag, pin and place alone; without a version it keeps an existing pin. */
  lemma SavedEffect(m: Manifest, name: string, enabled: bool, version: Option<string>)
    requires m.Valid()
    ensures var m' := Saved(m, name, enabled, version);
      && EnabledFlags(m') == (if enabled then EnabledFlags(m) + {name} else EnabledFlags(m) - {name})
      && m'.keys[..|m.keys|] == m.keys
      && (forall n :: n in m.info && n != name ==> n in m'.info && m'.info[n] == m.info[n])
      && (version.Some? && version.value != "" ==> m'.info[name].version == version)
      && (version == None && name in m.info ==> m'.info[name].version == m.info[name].version)
  {
  }

  ghost predicate DistinctEntries(es: seq<Entry>)
  {
    forall i, j :: 0 <= i < j < |es| ==> es[i].name != es[j].name
  }

  /** The entry shows what is stored under its name. */
  ghost predicate Reports(m: Manifest, configs: map<string, Config>, e: Entry)
  {
    && e.name in m.info && e.enabled == m.info[e.name].enabled
    && e.config == ConfigFor(configs, e.name) && e.version == m.info[e.name].version
  }

  lemma {:induction false} EntriesAreTrue(m: Manifest, configs: map<string, Config>, keys: seq<string>)
    requires Elems(keys) <= m.info.Keys && Distinct(keys)
    ensures var es := EnabledEntries(m, configs, keys);
      && (forall i :: 0 <= i < |es| ==> Reports(m, configs, es[i]) && es[i].name in keys && es[i].enabled)
      && DistinctEntries(es)
  {
    if keys != [] {
      var k, front := keys[|keys| - 1], keys[..|keys| - 1];
      assert k in Elems(keys) && Elems(front) <= Elems(keys);
      EntriesAreTrue(m, configs, front);
    }
  }

  lemma {:induction false} EntryIsListed(m: Manifest, configs: map<string, Config>, keys: seq<string>, name: string) returns (i: nat)
    requires Elems(keys) <= m.info.Keys && name in keys && m.info[name].enabled
    ensures i < |EnabledEntries(m, configs, keys)| && EnabledEntries(m, configs, keys)[i].name == name
  {
    var k, front := keys[|keys| - 1], keys[..|keys| - 1];
    assert k in Elems(keys) && Elems(front) <= Elems(keys);
    if k == name {
      i := |EnabledEntries(m, configs, keys)| - 1;
    } else {
      assert keys == front + [k];
      i := EntryIsListed(m, configs, front, name);
    }
  }

  /** They come in the order of the file. */
  lemma {:induction false} EntriesInFileOrder(m: Manifest, configs: map<string, Config>, keys: seq<string>, i: nat, j: nat)
    returns (p: nat, q: nat)
    requires Elems(keys) <= m.info.Keys && i < j < |EnabledEntries(m, configs, keys)|
    ensures p < q < |keys|
    ensures EnabledEntries(m, configs, keys)[i].name == keys[p] && EnabledEntries(m, configs, keys)[j].name == keys[q]
  {
    var front := keys[..|keys| - 1];
    assert keys[|keys| - 1] in Elems(keys) && Elems(front) <= Elems(keys);
    if j < |EnabledEntries(m, configs, front)| {
      p, q := EntriesInFileOrder(m, configs, front, i, j);
    } else {
      q := |keys| - 1;
      p := EntryComesFrom(m, configs, front, i);
    }
  }

  lemma {:induction false} EntryComesFrom(m: Manifest, configs: map<string, Config>, keys: seq<string>, i: nat) returns (p: nat)
    requires Elems(keys) <= m.info.Keys && i < |EnabledEntries(m, configs, keys)|
    ensures p < |keys| && EnabledEntries(m, configs, keys)[i].name == keys[p]
  {
    var front := keys[..|keys| - 1];
    assert keys[|keys| - 1] in Elems(keys) && Elems(front) <= Elems(keys);
    if i < |EnabledEntries(m, configs, front)| {
      p := EntryComesFrom(m, configs, front, i);
    } else {
      p := |keys| - 1;
    }
  }

  /** The enabled entries list each enabled name once, with its pin and saved
      configuration. */
  lemma EnabledEntriesMeaning(m: Manifest, configs: map<string, Config>, keys: seq<string>)
    requires Elems(keys) <= m.info.Keys && Distinct(keys)
    ensures var es := EnabledEntries(m, configs, keys);
      && (forall i :: 0 <= i < |es| ==> Reports(m, configs, es[i]) && es[i].name in keys && es[i].enabled)
      && (forall k :: k in keys && m.info[k].enabled ==> exists i :: 0 <= i < |es| && es[i].name == k)
      && DistinctEntries(es)
  {
    EntriesAreTrue(m, configs, keys);
    forall k | k in keys && m.info[k].enabled
      ensures exists i :: 0 <= i < |EnabledEntries(m, configs, keys)| && EnabledEntries(m, configs, keys)[i].name == k
    {
      var _ := EntryIsListed(m, configs, keys, k);
    }
  }

  class JsonFilePluginConfigStore {
    var manifest: Manifest
    var configs: map<string, Config>

    constructor ()
      ensures manifest == Manifest([], map[]) && configs == map[]
    {
      manifest, configs := Manifest([], map[]), map[];
    }

    /** Saves the flag and, when given, the version pin and the configuration.
        The result says whether every write went through. */
    method Save(name: string, enabled: bool, config: Option<Config>, version: Option<string>, fault: Fault) returns (ok: bool)
      modifies this
      ensures manifest == if fault == ManifestFault then old(manifest) else Saved(old(manifest), name, enabled, version)
      ensures configs == if fault == NoFault && config.Some? then old(configs)[name := config.value] else old(configs)
      ensures ok <==> fault == NoFault || (fault == ConfigFault && config == None)
    {
      var keys, info := manifest.keys, manifest.info;
      if name !in info {
        var stamp := if version.Some? && version.value != "" then version.value else "1.0.0";
        keys, info := keys + [name], info[name := PluginInfo(false, Some(stamp))];
      } else if version.Some? {
        info := info[name := info[name].(version := version)];
      }
      info := info[name := info[name].(enabled := enabled)];
      if fault == ManifestFault {
        return false;
      }
      manifest := Manifest(keys, info);
      if config.Some? {
        if fault == ConfigFault {
          return false;
        }
        configs := configs[name := config.value];
      }
      return true;
    }

    method GetEnabled() returns (entries: seq<Entry>)
      requires manifest.Valid()
      ensures entries == EnabledEntries(manifest, configs, manifest.keys)
    {
      entries := [];
      var keys := manifest.keys;
      for i := 0 to |keys|
        invariant Elems(keys[..i]) <= manifest.info.Keys
        invariant entries == EnabledEntries(manifest, configs, keys[..i])
      {
        var name := keys[i];
        assert name in Elems(keys) && Elems(keys[..i + 1]) <= Elems(keys);
        assert keys[..i + 1][..i] == keys[..i];
        if manifest.info[name].enabled {
          entries := entries + [Entry(name, true, ConfigFor(configs, name), manifest.info[name].version)];
        }
      }
      assert keys[..|keys|] == keys;
    }

    method GetByName(name: string) returns (entry: Option<Entry>)
      ensures entry == None <==> name !in manifest.info
      ensures entry.Some? ==> entry.value.name == name && Reports(manifest, configs, entry.value)
    {
      if name !in manifest.info {
        return None;
      }
      var info := manifest.info[name];
      return Some(Entry(name, info.enabled, ConfigFor(configs, name), info.version));
    }
  }
}
