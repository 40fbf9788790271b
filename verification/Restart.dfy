/** The restart round trip: exactly when a new process rebuilds what was enabled. */
module Restart {
  import opened Graphs
  import opened OnePass
  import opened Versioning
  import opened DependencyResolver
  import opened ConfigStore
  import opened Lifecycle
  import opened Consistency
  import opened Boot
  import opened Runs

  /** The files say what memory says: the same plugins are enabled, and the saved
      configuration of each is the one in use. */
  ghost predicate Mirrors(s: System)
  {
    && EnabledFlags(s.manifest) == EnabledNames(s.plugins)
    && forall n :: n in EnabledNames(s.plugins) ==> ConfigFor(s.configs, n) == s.plugins[n].config
  }

  // ---- One restart ---------------------------------------------------------------

  lemma RestartedNeeds(h: Host, s: System, n: Name)
    requires Consistent(h, s.plugins) && n in EnabledNames(s.plugins)
    ensures NeedsOf(h.pk, s.plugins[n].def) <= EnabledNames(s.plugins)
    ensures Ready(h, Restarted(s).plugins, n)
  {
    var def := s.plugins[n].def;
    SatisfiedNeeds(h.pk, s.plugins, def);
    AllSatisfiedIff(h.pk, s.plugins, def);
  }

  /** At the restart exactly the plugins that were enabled are pending. */
  lemma RestartIsPending(h: Host, s: System)
    requires s.manifest.Valid() && Named(s.plugins) && EnabledFlags(s.manifest) == EnabledNames(s.plugins)
    ensures var t := Restarted(s);
      PendingNames(t) == EnabledNames(s.plugins) && EnabledNames(t.plugins) == {} && Named(t.plugins)
  {
  }

  lemma RestartCompletes(h: Host, s: System, unsaved: set<string>)
    requires s.manifest.Valid() && Consistent(h, s.plugins) && EnabledFlags(s.manifest) == EnabledNames(s.plugins)
    ensures Booted(h, Restarted(s), unsaved).1 == Completed
  {
    RestartIsPending(h, s);
    var t := Restarted(s);
    BootCompletesIff(h, t, unsaved);
    forall n | n in PendingNames(t) ensures !EndsBoot(h.pk, t.plugins, t.plugins[n].def, BootResult(h, t)) {
      RestartedNeeds(h, s, n);
      ParsedNeverStumbles(h.pk, t.plugins, t.plugins[n].def.meta.dependencies, BootResult(h, t));
    }
  }

  /** The graph the boot sorts is the graph of what was enabled; all of it is ready. */
  lemma RestartGraph(h: Host, s: System)
    requires s.manifest.Valid() && Consistent(h, s.plugins) && EnabledFlags(s.manifest) == EnabledNames(s.plugins)
    ensures var t := Restarted(s);
      var g, needs := PendingGraph(h, t), NeedsMap(h.pk, t.plugins, PendingNames(t));
      && g == EnabledGraph(h.pk, s.plugins)
      && forall n :: n in g ==> n in ReadyNames(h, t.plugins) && n in needs && needs[n] <= g.Keys
  {
    var t := Restarted(s);
    RestartIsPending(h, s);
    var g := PendingGraph(h, t);
    forall n | n in g ensures n in ReadyNames(h, t.plugins) && g[n] == NeedsOf(h.pk, s.plugins[n].def) <= g.Keys {
      RestartedNeeds(h, s, n);
    }
  }

  lemma RestartRebuildsEnabled(h: Host, s: System, unsaved: set<string>)
    requires s.manifest.Valid() && Consistent(h, s.plugins) && EnabledFlags(s.manifest) == EnabledNames(s.plugins)
    ensures Booted(h, Restarted(s), unsaved).1 == Completed
    ensures EnabledNames(Booted(h, Restarted(s), unsaved).0.plugins) == EnabledNames(s.plugins)
  {
    var t := Restarted(s);
    RestartIsPending(h, s);
    RestartCompletes(h, s, unsaved);
    RestartGraph(h, s);
    var k := BootIsPass(h, t, unsaved);
    BootOrderIsSort(h, t);
    ConsistentSetIsRebuilt(PendingGraph(h, t), NamesOf(PendingList(t)), ReadyNames(h, t.plugins), NeedsMap(h.pk, t.plugins, PendingNames(t)));
  }

  /** Where the stored flags say what is enabled, a restart enables the same plugins
      again if and only if they are consistent. */
  lemma RestartRebuildsIff(h: Host, s: System, unsaved: set<string>)
    requires s.manifest.Valid() && Named(s.plugins) && EnabledFlags(s.manifest) == EnabledNames(s.plugins)
    ensures EnabledNames(Booted(h, Restarted(s), unsaved).0.plugins) == EnabledNames(s.plugins) <==> Consistent(h, s.plugins)
  {
    if Consistent(h, s.plugins) {
      RestartRebuildsEnabled(h, s, unsaved);
    } else {
      RestartIsConsistent(h, s, unsaved);
      BootKeepsFlags(h, Restarted(s), unsaved);
      var ps := Booted(h, Restarted(s), unsaved).0.plugins;
      if EnabledNames(ps) == EnabledNames(s.plugins) {
        assert SameEnabled(ps, s.plugins);
        SameEnabledKeepsConsistent(h, ps, s.plugins);
      }
    }
  }

  // ---- Configurations ------------------------------------------------------------

  lemma {:induction false} KnownEntriesMeaning(ps: Registry, es: seq<Entry>, i: nat)
    requires DistinctEntries(es) && i < |es| && es[i].name in ps
    ensures es[i].name in KnownEntries(ps, es) && KnownEntries(ps, es)[es[i].name] == es[i]
  {
    if i < |es| - 1 {
      KnownEntriesMeaning(ps, es[..|es| - 1], i);
    }
  }

  lemma TurnLoadsConfig(h: Host, ps: Registry, name: string, entry: Option<Entry>)
    requires Waiting(ps, name)
    ensures AfterTurn(h, ps, name, entry)[name].config
         == if entry.Some? && entry.value.config != map[] then entry.value.config else ps[name].config
  {
  }

  lemma {:induction false} RestoringLoadsConfigs(h: Host, s: System, order: seq<string>, entries: map<string, Entry>, unsaved: set<string>, n: string)
    requires AllWaiting(s.plugins, order) && n in s.plugins && RestoredAll(h, s, order, entries, unsaved).1 == Completed
    ensures SameDefs(s.plugins, RestoredAll(h, s, order, entries, unsaved).0.plugins)
    ensures RestoredAll(h, s, order, entries, unsaved).0.plugins[n].config
         == if n in order && n in entries && entries[n].config != map[] then entries[n].config else s.plugins[n].config
    decreases |order|
  {
    if order != [] {
      var x := order[0];
      assert Waiting(s.plugins, order[0]);
      var t, outcome := RestoredAllUnfolds(h, s, order, entries, unsaved);
      TurnUnfolds(h, s, x, EntryFor(entries, x), x !in unsaved);
      TurnMeaning(h, s.plugins, x, EntryFor(entries, x));
      TurnLoadsConfig(h, s.plugins, x, EntryFor(entries, x));
      WaitingAfter(s.plugins, t.plugins, order);
      RestoringLoadsConfigs(h, t, order[1..], entries, unsaved, n);
      assert n in order <==> n == x || n in order[1..];
    }
  }

  lemma StoredEntryIsKnown(s: System, n: string)
    requires s.manifest.Valid() && n in EnabledFlags(s.manifest) && n in s.plugins
    ensures var known := KnownEntries(s.plugins, EnabledEntries(s.manifest, s.configs, s.manifest.keys));
      n in known && known[n].config == ConfigFor(s.configs, n) && known[n].version == s.manifest.info[n].version
  {
    var es := EnabledEntries(s.manifest, s.configs, s.manifest.keys);
    EnabledEntriesMeaning(s.manifest, s.configs, s.manifest.keys);
    assert n in Elems(s.manifest.keys);
    var i: nat :| i < |es| && es[i].name == n;
    KnownEntriesMeaning(s.plugins, es, i);
    assert Reports(s.manifest, s.configs, es[i]);
  }

  /** After a boot that completes, each stored plugin has its stored configuration. */
  lemma RestartLoadsConfig(h: Host, s: System, unsaved: set<string>, n: string)
    requires s.manifest.Valid() && Named(s.plugins) && n in s.plugins && n in EnabledFlags(s.manifest)
    requires Booted(h, Restarted(s), unsaved).1 == Completed
    ensures SameDefs(s.plugins, Booted(h, Restarted(s), unsaved).0.plugins)
    ensures Booted(h, Restarted(s), unsaved).0.plugins[n].config == ConfigFor(s.configs, n)
  {
    var t := Restarted(s);
    assert n in PendingNames(t);
    BootLoadsConfig(h, t, unsaved, n);
  }

  lemma BootLoadsConfig(h: Host, s: System, unsaved: set<string>, n: string)
    requires s.manifest.Valid() && Named(s.plugins) && n in PendingNames(s) && Booted(h, s, unsaved).1 == Completed
    ensures SameDefs(s.plugins, Booted(h, s, unsaved).0.plugins)
    ensures Booted(h, s, unsaved).0.plugins[n].config
         == if ConfigFor(s.configs, n) != map[] then ConfigFor(s.configs, n) else s.plugins[n].config
  {
    PendingOrder(h, s);
    StoredEntryIsKnown(s, n);
    var order := OrderOf(h.pk, PendingList(s));
    assert n in Elems(order);
    RestoringLoadsConfigs(h, s, order, KnownEntries(s.plugins, EnabledEntries(s.manifest, s.configs, s.manifest.keys)), unsaved, n);
  }

  /** The new process is the old one: the same plugins, enabled and configured alike. */
  ghost predicate Rebuilt(s: System, t: System)
  {
    && SameDefs(s.plugins, t.plugins) && EnabledNames(t.plugins) == EnabledNames(s.plugins)
    && forall n :: n in EnabledNames(s.plugins) ==> t.plugins[n].config == s.plugins[n].config
  }

  /** The restart of a system whose files mirror its memory gives the same system
      back, with files that mirror memory again, if its plugins are consistent, and
      only then. */
  lemma RestartGivesBackIff(h: Host, s: System, unsaved: set<string>)
    requires WellFormedSystem(s) && Mirrors(s)
    ensures Rebuilt(s, Booted(h, Restarted(s), unsaved).0) <==> Consistent(h, s.plugins)
    ensures Consistent(h, s.plugins) ==>
      Booted(h, Restarted(s), unsaved).1 == Completed && Mirrors(Booted(h, Restarted(s), unsaved).0)
  {
    RestartRebuildsIff(h, s, unsaved);
    if Consistent(h, s.plugins) {
      RestartRebuildsEnabled(h, s, unsaved);
      BootKeepsFlags(h, Restarted(s), unsaved);
      forall n | n in EnabledNames(s.plugins)
        ensures Booted(h, Restarted(s), unsaved).0.plugins[n].config == s.plugins[n].config
      {
        RestartLoadsConfig(h, s, unsaved, n);
      }
    }
  }

  // ---- Runs that are saved ---------------------------------------------------------

  /** Every save of the step goes through, and no configuration in use is changed
      behind the store's back. */
  ghost predicate Saves(s: System, step: Step)
  {
    match step
    case SetConfig(name, _, _) => name !in EnabledNames(s.plugins)
    case Enable(_, fault) => fault == NoFault
    case CliEnable(_, fault) => fault == NoFault
    case Disable(_, fault) => fault == NoFault
    case _ => true
  }

  lemma HeadIsElement(s: seq<Name>)
    requires s != []
    ensures Elems(s) != {}
  {
    assert s[0] in Elems(s);
  }

  lemma NothingPendingWhileMirrored(h: Host, s: System, unsaved: set<string>)
    requires WellFormedSystem(s) && Mirrors(s)
    ensures Booted(h, s, unsaved) == (s, Completed)
  {
    PendingOrder(h, s);
    var order := OrderOf(h.pk, PendingList(s));
    assert PendingNames(s) == {};
    if order != [] { HeadIsElement(order); }
  }

  lemma EnableKeepsMirror(h: Host, s: System, name: string)
    requires Mirrors(s) && s.manifest.Valid()
    ensures Mirrors(EnabledPlugin(h, s, name, NoFault).0)
  {
    var (t, outcome) := EnabledPlugin(h, s, name, NoFault);
    if outcome == Done {
      var ps := WithStatus(s.plugins, name, Enabled);
      SavedEffect(s.manifest, name, true, Some(s.plugins[name].def.meta.version));
      assert t.plugins == ps && EnabledNames(ps) == EnabledNames(s.plugins) + {name};
    }
  }

  lemma DisableKeepsMirror(s: System, name: string)
    requires Mirrors(s) && s.manifest.Valid()
    ensures Mirrors(DisabledPlugin(s, name, NoFault).0)
  {
    var (t, outcome) := DisabledPlugin(s, name, NoFault);
    if outcome == Done {
      var ps := WithStatus(s.plugins, name, Disabled);
      SavedEffect(s.manifest, name, false, Some(s.plugins[name].def.meta.version));
      assert t.plugins == ps && EnabledNames(ps) == EnabledNames(s.plugins) - {name};
    }
  }

  /** A step that is saved keeps the mirror; a restart does if what it restarts is consistent. */
  lemma StepKeepsMirror(h: Host, s: System, step: Step)
    requires WellFormedSystem(s) && Mirrors(s) && Saves(s, step)
    requires step.Restart? ==> Consistent(h, s.plugins)
    ensures Mirrors(Next(h, s, step))
  {
    match step
    case Discover(def) =>
      assert EnabledNames(DiscoveredPlugin(s, def).0.plugins) == EnabledNames(s.plugins);
    case SetConfig(name, key, value) =>
      assert EnabledNames(Next(h, s, step).plugins) == EnabledNames(s.plugins);
    case Enable(name, _) =>
      EnableKeepsMirror(h, s, name);
    case CliEnable(name, _) =>
      CliEnableKeepsMirror(h, s, name);
    case Disable(name, _) =>
      DisableKeepsMirror(s, name);
    case BootAgain(unsaved) =>
      NothingPendingWhileMirrored(h, s, unsaved);
    case Restart(unsaved) =>
      RestartGivesBackIff(h, s, unsaved);
  }

  lemma CliEnableKeepsMirror(h: Host, s: System, name: string)
    requires Mirrors(s) && s.manifest.Valid()
    ensures Mirrors(CliEnabled(h, s, name, NoFault).0)
  {
    EnableKeepsMirror(h, s, name);
    if name in s.plugins && s.plugins[name].status == Disabled {
      var t := s.(plugins := WithStatus(s.plugins, name, Initialized));
      assert EnabledNames(t.plugins) == EnabledNames(s.plugins);
      EnableKeepsMirror(h, t, name);
    }
  }

  /** A run from a fresh installation in which every save goes through. */
  ghost predicate IsSavedRun(h: Host, steps: seq<Step>, states: seq<System>)
  {
    IsRun(h, Empty(), steps, states) && forall i :: 0 <= i < |steps| ==> Saves(states[i], steps[i])
  }

  lemma SavedRunStep(h: Host, steps: seq<Step>, states: seq<System>, n: nat)
    requires IsSavedRun(h, steps, states) && n < |steps|
    ensures WellFormedSystem(states[n]) && Saves(states[n], steps[n]) && states[n + 1] == Next(h, states[n], steps[n])
  {
    RunKeepsWellFormed(h, Empty(), steps, states, n);
    assert Saves(states[n], steps[n]) && states[n + 1] == Next(h, states[n], steps[n]);
  }

  /** Memory is consistent and the files mirror it. */
  ghost predicate InOrderAndMirrored(h: Host, s: System)
  {
    WellFormedSystem(s) && Consistent(h, s.plugins) && Mirrors(s)
  }

  lemma EmptyIsInOrder(h: Host)
    ensures InOrderAndMirrored(h, Empty())
  {
    EmptyIsConsistent(h);
  }

  lemma SavedStepKeepsMirror(h: Host, steps: seq<Step>, states: seq<System>, n: nat)
    requires IsSavedRun(h, steps, states) && n < |steps| && InOrderAndMirrored(h, states[n])
    ensures WellFormedSystem(states[n + 1]) && Mirrors(states[n + 1])
    ensures InOrderAndMirrored(h, states[n + 1]) <==> Holds(h, states[n], steps[n])
  {
    SavedRunStep(h, steps, states, n);
    StepKeepsWellFormed(h, states[n], steps[n]);
    StepKeepsMirror(h, states[n], steps[n]);
    StepConsistentIff(h, states[n], steps[n]);
  }

  /** It stays so while every disable finds its name held. */
  lemma {:induction false} HeldRunKeepsMirror(h: Host, steps: seq<Step>, states: seq<System>, n: nat)
    requires IsSavedRun(h, steps, states) && n < |states|
    requires forall i :: 0 <= i < n ==> Holds(h, states[i], steps[i])
    ensures InOrderAndMirrored(h, states[n])
  {
    if n == 0 {
      EmptyIsInOrder(h);
    } else {
      HeldRunKeepsMirror(h, steps, states, n - 1);
      var i := n - 1;
      assert Holds(h, states[i], steps[i]);
      SavedStepKeepsMirror(h, steps, states, i);
    }
  }

  /** A restart at this point gives the system back, whichever pins cannot be written. */
  ghost predicate SurvivesRestart(h: Host, s: System)
  {
    s.manifest.Valid() && forall unsaved :: var (t, outcome) := Booted(h, Restarted(s), unsaved); outcome == Completed && Rebuilt(s, t)
  }

  /** The round trip, for any dependencies. Take any run of discoveries, configuration
      changes, enables, disables, boots and restarts from an empty store, with every
      save going through. At every point of it a restart ends with exactly the same
      enabled plugins and configurations, if and only if no disable in the run goes
      for a name that an enabled plugin needs and none lists bare. */
  lemma RestartRoundTripIff(h: Host, steps: seq<Step>, states: seq<System>)
    requires IsSavedRun(h, steps, states)
    ensures (forall i :: 0 <= i < |states| ==> SurvivesRestart(h, states[i]))
       <==> (forall i :: 0 <= i < |steps| ==> Holds(h, states[i], steps[i]))
  {
    if forall i :: 0 <= i < |steps| ==> Holds(h, states[i], steps[i]) {
      forall i | 0 <= i < |states| ensures SurvivesRestart(h, states[i]) { HeldRunSurvives(h, steps, states, i); }
    }
    if forall i :: 0 <= i < |states| ==> SurvivesRestart(h, states[i]) {
      forall i | 0 <= i < |steps| ensures Holds(h, states[i], steps[i]) { SurvivingRunHolds(h, steps, states, i); }
    }
  }

  lemma HeldRunSurvives(h: Host, steps: seq<Step>, states: seq<System>, n: nat)
    requires IsSavedRun(h, steps, states) && n < |states|
    requires forall i :: 0 <= i < n ==> Holds(h, states[i], steps[i])
    ensures SurvivesRestart(h, states[n])
  {
    HeldRunKeepsMirror(h, steps, states, n);
    forall unsaved ensures var (t, outcome) := Booted(h, Restarted(states[n]), unsaved); outcome == Completed && Rebuilt(states[n], t) {
      RestartGivesBackIff(h, states[n], unsaved);
    }
  }

  lemma {:induction false} SurvivingRunHolds(h: Host, steps: seq<Step>, states: seq<System>, n: nat)
    requires IsSavedRun(h, steps, states) && n < |steps|
    requires forall i :: 0 <= i < |states| ==> SurvivesRestart(h, states[i])
    ensures Holds(h, states[n], steps[n])
    decreases n
  {
    forall i | 0 <= i < n ensures Holds(h, states[i], steps[i]) { SurvivingRunHolds(h, steps, states, i); }
    HeldRunKeepsMirror(h, steps, states, n);
    SavedStepKeepsMirror(h, steps, states, n);
    assert SurvivesRestart(h, states[n + 1]);
    RestartGivesBackIff(h, states[n + 1], {});
  }

  // ---- Version pins ----------------------------------------------------------------

  /** The pin of a stored plugin needs no rewriting. */
  predicate PinSettled(m: Manifest, meta: Metadata)
  {
    meta.name in m.info && (m.info[meta.name].version in {None, Some("")} || m.info[meta.name].version == Some(meta.version))
  }

  /** A registered plugin, stored as enabled, whose entry shows the stored pin. */
  ghost predicate EntryIsCurrent(s: System, entries: map<string, Entry>, n: string)
  {
    && n in s.plugins && n in EnabledFlags(s.manifest)
    && n in entries && entries[n].version == s.manifest.info[n].version
  }

  /** One turn settles the pin of its plugin and disturbs no other. */
  lemma TurnSettlesPin(h: Host, s: System, name: string, entry: Option<Entry>, n: string)
    requires s.manifest.Valid() && Named(s.plugins) && name in s.plugins && name in EnabledFlags(s.manifest)
    requires entry.Some? && entry.value.version == s.manifest.info[name].version
    requires Restored(h, s, name, entry, true).1 == Completed
    requires n in s.plugins
    ensures var m := Restored(h, s, name, entry, true).0.manifest;
      && m.Valid() && EnabledFlags(m) == EnabledFlags(s.manifest)
      && (n == name || PinSettled(s.manifest, s.plugins[n].def.meta) ==> PinSettled(m, s.plugins[n].def.meta))
      && (n != name && n in s.manifest.info ==> n in m.info && m.info[n] == s.manifest.info[n])
  {
    TurnReconciles(h, s, name, entry);
    ReconciledKeepsFlags(s.manifest, entry, s.plugins[name].def.meta, true);
  }

  lemma CurrentAfterTurn(h: Host, s: System, order: seq<string>, entries: map<string, Entry>, i: nat)
    requires s.manifest.Valid() && Named(s.plugins) && Distinct(order) && 0 < i < |order|
    requires EntryIsCurrent(s, entries, order[0]) && EntryIsCurrent(s, entries, order[i])
    requires Restored(h, s, order[0], EntryFor(entries, order[0]), true).1 == Completed
    ensures EntryIsCurrent(Restored(h, s, order[0], EntryFor(entries, order[0]), true).0, entries, order[i])
  {
    TurnFiles(h, s, order[0], EntryFor(entries, order[0]), true);
    TurnSettlesPin(h, s, order[0], EntryFor(entries, order[0]), order[i]);
  }

  lemma {:induction false} RestoringSettlesPins(h: Host, s: System, order: seq<string>, entries: map<string, Entry>, n: string)
    requires s.manifest.Valid() && Named(s.plugins) && Distinct(order)
    requires forall i :: 0 <= i < |order| ==> EntryIsCurrent(s, entries, order[i])
    requires RestoredAll(h, s, order, entries, {}).1 == Completed
    requires n in s.plugins && (n in order || PinSettled(s.manifest, s.plugins[n].def.meta))
    ensures PinSettled(RestoredAll(h, s, order, entries, {}).0.manifest, s.plugins[n].def.meta)
    decreases |order|
  {
    if order != [] {
      var x, rest := order[0], order[1..];
      assert EntryIsCurrent(s, entries, order[0]);
      var t, outcome := RestoredAllUnfolds(h, s, order, entries, {});
      TurnFiles(h, s, x, EntryFor(entries, x), true);
      TurnSettlesPin(h, s, x, EntryFor(entries, x), n);
      forall i | 0 <= i < |rest| ensures EntryIsCurrent(t, entries, rest[i]) {
        assert rest[i] == order[i + 1] && EntryIsCurrent(s, entries, order[i + 1]);
        CurrentAfterTurn(h, s, order, entries, i + 1);
      }
      assert n in order <==> n == x || n in rest;
      RestoringSettlesPins(h, t, rest, entries, n);
    }
  }

  lemma TurnReconciles(h: Host, s: System, name: string, entry: Option<Entry>)
    requires name in s.plugins && Restored(h, s, name, entry, true).1 == Completed
    ensures Restored(h, s, name, entry, true).0.manifest == Reconciled(s.manifest, entry, s.plugins[name].def.meta, true)
  {
  }

  lemma {:induction false} SettledPinsStay(h: Host, s: System, order: seq<string>, entries: map<string, Entry>, unsaved: set<string>)
    requires Named(s.plugins) && Distinct(order)
    requires forall i :: 0 <= i < |order| ==> EntryIsCurrent(s, entries, order[i]) && PinSettled(s.manifest, s.plugins[order[i]].def.meta)
    ensures RestoredAll(h, s, order, entries, unsaved).0.manifest == s.manifest
    decreases |order|
  {
    if order != [] {
      var x, rest := order[0], order[1..];
      assert EntryIsCurrent(s, entries, order[0]) && PinSettled(s.manifest, s.plugins[order[0]].def.meta);
      var (t, outcome) := Restored(h, s, x, EntryFor(entries, x), x !in unsaved);
      TurnFiles(h, s, x, EntryFor(entries, x), x !in unsaved);
      if outcome == Completed {
        forall i | 0 <= i < |rest| ensures EntryIsCurrent(t, entries, rest[i]) && PinSettled(t.manifest, t.plugins[rest[i]].def.meta) {
          assert rest[i] == order[i + 1];
          assert EntryIsCurrent(s, entries, order[i + 1]) && PinSettled(s.manifest, s.plugins[order[i + 1]].def.meta);
        }
        SettledPinsStay(h, t, rest, entries, unsaved);
      }
    }
  }

  lemma PendingEntriesAreCurrent(s: System)
    requires Named(s.plugins) && s.manifest.Valid()
    ensures var known := KnownEntries(s.plugins, EnabledEntries(s.manifest, s.configs, s.manifest.keys));
      forall n :: n in PendingNames(s) ==> EntryIsCurrent(s, known, n)
  {
    forall n | n in PendingNames(s)
      ensures EntryIsCurrent(s, KnownEntries(s.plugins, EnabledEntries(s.manifest, s.configs, s.manifest.keys)), n)
    {
      StoredEntryIsKnown(s, n);
    }
  }

  /** Version pins heal in one boot: after a completed boot of a new process whose
      saves go through, the next boot of the same plugins rewrites nothing, even
      if it is cut short. */
  lemma PinsHealInOneBoot(h: Host, s: System, unsaved: set<string>)
    requires Named(s.plugins) && s.manifest.Valid()
    requires Booted(h, Restarted(s), {}).1 == Completed
    ensures var t := Booted(h, Restarted(s), {}).0;
      && t.manifest.Valid()
      && Booted(h, Restarted(t), unsaved).0.manifest == t.manifest
  {
    var a := Restarted(s);
    PendingOrder(h, a);
    PendingEntriesAreCurrent(a);
    var order := OrderOf(h.pk, PendingList(a));
    var known := KnownEntries(a.plugins, EnabledEntries(a.manifest, a.configs, a.manifest.keys));
    forall i | 0 <= i < |order| ensures EntryIsCurrent(a, known, order[i]) { assert order[i] in Elems(order); }
    BootKeepsFlags(h, a, {});
    RestartedIsConsistent(h, s);
    BootKeepsConsistent(h, a, {});
    var t := Booted(h, a, {}).0;
    forall n | n in PendingNames(a) ensures PinSettled(t.manifest, a.plugins[n].def.meta) {
      assert n in Elems(order);
      RestoringSettlesPins(h, a, order, known, n);
    }
    var b := Restarted(t);
    SettledBootRewritesNothing(h, b, unsaved);
  }

  lemma SettledBootRewritesNothing(h: Host, s: System, unsaved: set<string>)
    requires Named(s.plugins) && s.manifest.Valid()
    requires forall n :: n in PendingNames(s) ==> PinSettled(s.manifest, s.plugins[n].def.meta)
    ensures Booted(h, s, unsaved).0.manifest == s.manifest
  {
    PendingOrder(h, s);
    PendingEntriesAreCurrent(s);
    var order := OrderOf(h.pk, PendingList(s));
    var known := KnownEntries(s.plugins, EnabledEntries(s.manifest, s.configs, s.manifest.keys));
    forall i | 0 <= i < |order| ensures EntryIsCurrent(s, known, order[i]) && PinSettled(s.manifest, s.plugins[order[i]].def.meta) {
      assert order[i] in Elems(order);
    }
    SettledPinsStay(h, s, order, known, unsaved);
  }
}
