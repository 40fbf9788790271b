/** The boot as a fixed point of the enabling rule. */
module Boot {
  import opened Graphs
  import opened TopologicalOrder
  import opened OnePass
  import opened Versioning
  import opened DependencyResolver
  import opened ConfigStore
  import opened Lifecycle
  import opened Consistency

  /** Every declared dependency parses, and the registered plugin it names, if
      any, has a version in its range. Fixed while the plugins are. */
  ghost predicate RangesOk(pk: Packaging, ps: Registry, def: PluginDef)
  {
    forall i :: 0 <= i < |def.meta.dependencies| ==>
      var req := Parse(pk, def.meta.dependencies[i]);
      req.Some? && (req.value.name in ps ==> req.value.SatisfiedBy(pk, ps[req.value.name].def.meta.version))
  }

  /** What a plugin contributes itself to being enabled at boot. */
  ghost predicate Ready(h: Host, ps: Registry, name: string)
  {
    name in ps && Gated(h, ps[name].def) && RangesOk(h.pk, ps, ps[name].def)
  }

  lemma AllSatisfiedIff(pk: Packaging, ps: Registry, def: PluginDef)
    ensures AllSatisfied(pk, ps, def) <==> RangesOk(pk, ps, def) && NeedsOf(pk, def) <= EnabledNames(ps)
  {
    if AllSatisfied(pk, ps, def) {
      SatisfiedNeeds(pk, ps, def);
      forall i | 0 <= i < |def.meta.dependencies|
        ensures var req := Parse(pk, def.meta.dependencies[i]);
          req.Some? && (req.value.name in ps ==> req.value.SatisfiedBy(pk, ps[req.value.name].def.meta.version))
      {
        assert Satisfied(pk, ps, def.meta.dependencies[i]);
      }
    }
    if RangesOk(pk, ps, def) && NeedsOf(pk, def) <= EnabledNames(ps) {
      forall i | 0 <= i < |def.meta.dependencies| ensures Satisfied(pk, ps, def.meta.dependencies[i]) {
        assert Parse(pk, def.meta.dependencies[i]).value.name in NeedsOf(pk, def);
      }
    }
  }

  /** Reading the dependencies in order, as long as the plugin named is in range and
      among the enabled ones, one comes to a string that does not parse. */
  predicate Stumbles(pk: Packaging, ps: Registry, raws: seq<string>, enabled: set<Name>)
  {
    raws != []
    && match Parse(pk, raws[0])
       case None => true
       case Some(req) =>
         req.name in enabled && req.name in ps && req.SatisfiedBy(pk, ps[req.name].def.meta.version) && Stumbles(pk, ps, raws[1..], enabled)
  }

  /** A broken environment ends the boot, and so does a string that the check comes to
      and cannot parse. */
  predicate EndsBoot(pk: Packaging, ps: Registry, def: PluginDef, enabled: set<Name>)
  {
    !def.environmentOk || Stumbles(pk, ps, def.meta.dependencies, enabled)
  }

  lemma {:induction false} MalformedIff(pk: Packaging, ps: Registry, ps': Registry, raws: seq<string>)
    requires SameDefs(ps, ps')
    ensures CheckAll(pk, ps', raws).Malformed? <==> Stumbles(pk, ps, raws, EnabledNames(ps'))
  {
    if raws != [] {
      MalformedIff(pk, ps, ps', raws[1..]);
    }
  }

  lemma {:induction false} StumblesAlike(pk: Packaging, ps: Registry, ps': Registry, raws: seq<string>, a: set<Name>, b: set<Name>)
    requires SameDefs(ps, ps')
    requires forall i :: 0 <= i < |raws| && Parse(pk, raws[i]).Some? ==> (Parse(pk, raws[i]).value.name in a <==> Parse(pk, raws[i]).value.name in b)
    ensures Stumbles(pk, ps, raws, a) <==> Stumbles(pk, ps', raws, b)
  {
    if raws != [] {
      forall i | 0 <= i < |raws[1..]| && Parse(pk, raws[1..][i]).Some?
        ensures Parse(pk, raws[1..][i]).value.name in a <==> Parse(pk, raws[1..][i]).value.name in b
      {
        assert raws[1..][i] == raws[i + 1];
      }
      StumblesAlike(pk, ps, ps', raws[1..], a, b);
    }
  }

  lemma {:induction false} ParsedNeverStumbles(pk: Packaging, ps: Registry, raws: seq<string>, enabled: set<Name>)
    requires forall i :: 0 <= i < |raws| ==> Parse(pk, raws[i]).Some?
    ensures !Stumbles(pk, ps, raws, enabled)
  {
    if raws != [] {
      ParsedNeverStumbles(pk, ps, raws[1..], enabled);
    }
  }

  ghost predicate SameDefs(ps: Registry, ps': Registry)
  {
    ps'.Keys == ps.Keys && forall n :: n in ps ==> ps'[n].def == ps[n].def
  }

  /** The needs of a set of registered plugins. */
  ghost function NeedsMap(pk: Packaging, ps: Registry, names: set<Name>): Graph
    requires names <= ps.Keys
  {
    map n | n in names :: NeedsOf(pk, ps[n].def)
  }

  ghost function ReadyNames(h: Host, ps: Registry): set<Name>
  {
    set n | n in ps && Ready(h, ps, n)
  }

  /** The registry after one turn. */
  ghost function AfterTurn(h: Host, ps: Registry, name: string, entry: Option<Entry>): Registry
    requires name in ps
  {
    var mid := WithStoredConfig(ps, name, entry);
    if CheckAll(h.pk, mid, ps[name].def.meta.dependencies) == Met && Gated(h, ps[name].def)
    then WithStatus(mid, name, Enabled) else mid
  }

  predicate Waiting(ps: Registry, n: Name)
  {
    n in ps && ps[n].status == Initialized
  }

  /** A turn that completes. */
  lemma TurnUnfolds(h: Host, s: System, name: string, entry: Option<Entry>, saveOk: bool)
    requires Waiting(s.plugins, name) && Restored(h, s, name, entry, saveOk).1 == Completed
    ensures Restored(h, s, name, entry, saveOk).0.plugins == AfterTurn(h, s.plugins, name, entry)
  {
    assert s.plugins[name := s.plugins[name]] == s.plugins;
  }

  /** A turn that ends the boot enables nothing. */
  lemma TurnAborts(h: Host, s: System, name: string, entry: Option<Entry>, saveOk: bool)
    requires Waiting(s.plugins, name) && Restored(h, s, name, entry, saveOk).1 != Completed
    ensures SameDefs(s.plugins, Restored(h, s, name, entry, saveOk).0.plugins)
    ensures EnabledNames(Restored(h, s, name, entry, saveOk).0.plugins) == EnabledNames(s.plugins)
  {
  }

  lemma TurnCompletesIff(h: Host, s: System, name: string, entry: Option<Entry>, saveOk: bool)
    requires Waiting(s.plugins, name)
    ensures Restored(h, s, name, entry, saveOk).1 == Completed
       <==> !EndsBoot(h.pk, s.plugins, s.plugins[name].def, EnabledNames(s.plugins))
  {
    var mid := WithStoredConfig(s.plugins, name, entry);
    assert EnabledNames(mid) == EnabledNames(s.plugins);
    MalformedIff(h.pk, s.plugins, mid, s.plugins[name].def.meta.dependencies);
  }

  /** One turn: the plugin is enabled exactly when it is ready and what it needs is. */
  lemma TurnMeaning(h: Host, ps: Registry, name: string, entry: Option<Entry>)
    requires Waiting(ps, name)
    ensures SameDefs(ps, AfterTurn(h, ps, name, entry))
    ensures forall n :: n in ps && n != name ==> AfterTurn(h, ps, name, entry)[n] == ps[n]
    ensures EnabledNames(AfterTurn(h, ps, name, entry)) ==
      if Ready(h, ps, name) && NeedsOf(h.pk, ps[name].def) <= EnabledNames(ps)
      then EnabledNames(ps) + {name} else EnabledNames(ps)
  {
    var mid := WithStoredConfig(ps, name, entry);
    assert EnabledNames(mid) == EnabledNames(ps);
    GateMeaning(h.pk, ps, mid, ps[name].def);
    assert EnabledNames(WithStatus(mid, name, Enabled)) == EnabledNames(mid) + {name};
  }

  lemma GateMeaning(pk: Packaging, ps: Registry, ps': Registry, def: PluginDef)
    requires SameDefs(ps, ps') && EnabledNames(ps) == EnabledNames(ps')
    ensures CheckAll(pk, ps', def.meta.dependencies) == Met
       <==> RangesOk(pk, ps, def) && NeedsOf(pk, def) <= EnabledNames(ps)
  {
    SatisfactionIgnoresConfig(pk, ps, ps', def);
    CheckMeaning(pk, ps', def.meta.dependencies);
    AllSatisfiedIff(pk, ps, def);
  }

  lemma SatisfactionIgnoresConfig(pk: Packaging, ps: Registry, ps': Registry, def: PluginDef)
    requires SameDefs(ps, ps') && EnabledNames(ps) == EnabledNames(ps')
    ensures AllSatisfied(pk, ps, def) <==> AllSatisfied(pk, ps', def)
  {
    forall raw ensures Satisfied(pk, ps, raw) <==> Satisfied(pk, ps', raw) {
      if Parse(pk, raw).Some? {
        var n := Parse(pk, raw).value.name;
        assert n in EnabledNames(ps) <==> n in EnabledNames(ps');
      }
    }
  }

  ghost predicate AllWaiting(ps: Registry, order: seq<Name>)
  {
    && Distinct(order)
    && forall i :: 0 <= i < |order| ==> Waiting(ps, order[i])
  }

  function EntryFor(entries: map<string, Entry>, n: string): Option<Entry>
  {
    if n in entries then Some(entries[n]) else None
  }

  /** Whether the plugin's pin can be written. */
  predicate PinSaved(name: string, unsaved: set<string>)
  {
    name !in unsaved
  }

  lemma RestoredAllUnfolds(h: Host, s: System, order: seq<Name>, entries: map<string, Entry>, unsaved: set<string>)
    returns (t: System, outcome: BootOutcome)
    requires order != [] && order[0] in s.plugins
    ensures (t, outcome) == Restored(h, s, order[0], EntryFor(entries, order[0]), PinSaved(order[0], unsaved))
    ensures RestoredAll(h, s, order, entries, unsaved)
         == if outcome == Completed then RestoredAll(h, t, order[1..], entries, unsaved) else (t, outcome)
  {
    var turn := Restored(h, s, order[0], EntryFor(entries, order[0]), order[0] !in unsaved);
    t, outcome := turn.0, turn.1;
  }

  lemma PassUnfolds(order: seq<Name>, k: nat, ready: set<Name>, needs: Graph, enabled: set<Name>)
    requires 0 < k <= |order| && Elems(order) <= needs.Keys
    ensures Elems(order[..k]) <= needs.Keys && Elems(order[1..][..k - 1]) <= needs.Keys && order[0] in needs
    ensures Pass(order[..k], ready, needs, enabled)
         == Pass(order[1..][..k - 1], ready, needs, if order[0] in ready && needs[order[0]] <= enabled then enabled + {order[0]} else enabled)
  {
    assert order[..k][0] == order[0] && order[..k][1..] == order[1..][..k - 1];
    assert order[0] in Elems(order) && Elems(order[..k]) <= Elems(order);
    assert Elems(order[1..][..k - 1]) <= Elems(order[..k]);
  }

  /** A completed first turn: what it enables, and what it leaves for the rest. */
  lemma FirstTurn(h: Host, s: System, order: seq<Name>, entries: map<string, Entry>, unsaved: set<string>) returns (t: System, outcome: BootOutcome)
    requires order != [] && AllWaiting(s.plugins, order)
    ensures RestoredAll(h, s, order, entries, unsaved)
         == if outcome == Completed then RestoredAll(h, t, order[1..], entries, unsaved) else (t, outcome)
    ensures SameDefs(s.plugins, t.plugins) && ReadyNames(h, t.plugins) == ReadyNames(h, s.plugins)
    ensures outcome == Completed ==> AllWaiting(t.plugins, order[1..])
    ensures outcome == Completed <==> !EndsBoot(h.pk, s.plugins, s.plugins[order[0]].def, EnabledNames(s.plugins))
    ensures EnabledNames(t.plugins) ==
      if outcome == Completed && order[0] in ReadyNames(h, s.plugins) && NeedsOf(h.pk, s.plugins[order[0]].def) <= EnabledNames(s.plugins)
      then EnabledNames(s.plugins) + {order[0]} else EnabledNames(s.plugins)
  {
    var n := order[0];
    assert Waiting(s.plugins, order[0]);
    t, outcome := RestoredAllUnfolds(h, s, order, entries, unsaved);
    TurnCompletesIff(h, s, n, EntryFor(entries, n), n !in unsaved);
    if outcome == Completed {
      TurnUnfolds(h, s, n, EntryFor(entries, n), n !in unsaved);
      TurnMeaning(h, s.plugins, n, EntryFor(entries, n));
      WaitingAfter(s.plugins, t.plugins, order);
    } else {
      TurnAborts(h, s, n, EntryFor(entries, n), n !in unsaved);
    }
    ReadyIsFixed(h, s.plugins, t.plugins);
  }

  /** A list of waiting plugins, with what they need and which plugins are ready. */
  ghost predicate PassSetup(h: Host, ps: Registry, order: seq<Name>, needs: Graph, ready: set<Name>)
  {
    && AllWaiting(ps, order) && ready == ReadyNames(h, ps) && Elems(order) <= needs.Keys
    && forall i :: 0 <= i < |order| ==> order[i] in needs && needs[order[i]] == NeedsOf(h.pk, ps[order[i]].def)
  }

  lemma FirstOfPass(h: Host, s: System, order: seq<Name>, entries: map<string, Entry>, unsaved: set<string>, needs: Graph, ready: set<Name>)
    returns (t: System, outcome: BootOutcome)
    requires order != [] && PassSetup(h, s.plugins, order, needs, ready)
    ensures RestoredAll(h, s, order, entries, unsaved)
         == if outcome == Completed then RestoredAll(h, t, order[1..], entries, unsaved) else (t, outcome)
    ensures SameDefs(s.plugins, t.plugins) && order[0] in needs
    ensures outcome == Completed <==> !EndsBoot(h.pk, s.plugins, s.plugins[order[0]].def, EnabledNames(s.plugins))
    ensures outcome == Completed ==> PassSetup(h, t.plugins, order[1..], needs, ready)
    ensures EnabledNames(t.plugins) ==
      if outcome == Completed && order[0] in ready && needs[order[0]] <= EnabledNames(s.plugins)
      then EnabledNames(s.plugins) + {order[0]} else EnabledNames(s.plugins)
  {
    t, outcome := FirstTurn(h, s, order, entries, unsaved);
    assert order[0] in Elems(order) && Elems(order[1..]) <= Elems(order);
    assert needs[order[0]] == NeedsOf(h.pk, s.plugins[order[0]].def);
    if outcome == Completed { NeedsStay(h, s.plugins, t.plugins, order, needs); }
  }

  /** The boot's loop is one gated pass over its list, or, when a plugin ends the boot,
      over the `k` names before that plugin. */
  lemma {:induction false} RestoredAllIsPass(h: Host, s: System, order: seq<Name>, entries: map<string, Entry>, unsaved: set<string>,
                                             needs: Graph, ready: set<Name>) returns (k: nat)
    requires PassSetup(h, s.plugins, order, needs, ready)
    ensures k <= |order| && (RestoredAll(h, s, order, entries, unsaved).1 == Completed ==> k == |order|)
    ensures SameDefs(s.plugins, RestoredAll(h, s, order, entries, unsaved).0.plugins)
    ensures Elems(order[..k]) <= needs.Keys
    ensures EnabledNames(RestoredAll(h, s, order, entries, unsaved).0.plugins)
         == Pass(order[..k], ready, needs, EnabledNames(s.plugins))
    decreases |order|
  {
    k := 0;
    if order != [] {
      var t, outcome := FirstOfPass(h, s, order, entries, unsaved, needs, ready);
      if outcome == Completed {
        k := RestoredAllIsPass(h, t, order[1..], entries, unsaved, needs, ready);
        k := k + 1;
        PassUnfolds(order, k, ready, needs, EnabledNames(s.plugins));
      }
    }
  }

  /** The plugin at position `i` ends the boot, given what the pass has enabled before its turn. */
  ghost predicate EndsAt(h: Host, ps: Registry, order: seq<Name>, needs: Graph, ready: set<Name>, i: nat)
    requires i < |order| && order[i] in ps && Elems(order) <= needs.Keys
  {
    assert Elems(order[..i]) <= Elems(order);
    EndsBoot(h.pk, ps, ps[order[i]].def, Pass(order[..i], ready, needs, EnabledNames(ps)))
  }

  /** Seen from the state after the first turn, nothing about the later turns changes. */
  lemma EndsLater(h: Host, ps: Registry, ps': Registry, order: seq<Name>, needs: Graph, ready: set<Name>, i: nat)
    requires 0 < i < |order| && Elems(order) <= needs.Keys && Elems(order[1..]) <= needs.Keys && order[0] in needs
    requires SameDefs(ps, ps') && order[i] in ps
    requires EnabledNames(ps') == if order[0] in ready && needs[order[0]] <= EnabledNames(ps) then EnabledNames(ps) + {order[0]} else EnabledNames(ps)
    ensures EndsAt(h, ps, order, needs, ready, i) <==> EndsAt(h, ps', order[1..], needs, ready, i - 1)
  {
    PassUnfolds(order, i, ready, needs, EnabledNames(ps));
    var enabled := Pass(order[..i], ready, needs, EnabledNames(ps));
    StumblesAlike(h.pk, ps, ps', ps[order[i]].def.meta.dependencies, enabled, enabled);
  }

  lemma LaterTurns(h: Host, ps: Registry, ps': Registry, order: seq<Name>, needs: Graph, ready: set<Name>)
    requires order != [] && Elems(order) <= needs.Keys && Elems(order[1..]) <= needs.Keys && order[0] in needs
    requires SameDefs(ps, ps') && AllWaiting(ps, order) && AllWaiting(ps', order[1..])
    requires EnabledNames(ps') == if order[0] in ready && needs[order[0]] <= EnabledNames(ps) then EnabledNames(ps) + {order[0]} else EnabledNames(ps)
    ensures (exists i :: 0 < i < |order| && EndsAt(h, ps, order, needs, ready, i))
       <==> (exists i :: 0 <= i < |order[1..]| && EndsAt(h, ps', order[1..], needs, ready, i))
  {
    var rest := order[1..];
    forall i | 0 < i < |order| ensures EndsAt(h, ps, order, needs, ready, i) <==> EndsAt(h, ps', rest, needs, ready, i - 1) {
      assert Waiting(ps, order[i]);
      EndsLater(h, ps, ps', order, needs, ready, i);
    }
    if i :| 0 < i < |order| && EndsAt(h, ps, order, needs, ready, i) {
      assert EndsAt(h, ps', rest, needs, ready, i - 1);
    }
    if i :| 0 <= i < |rest| && EndsAt(h, ps', rest, needs, ready, i) {
      assert EndsAt(h, ps, order, needs, ready, i + 1);
    }
  }

  /** The boot's loop completes exactly when no turn ends the boot. */
  lemma {:induction false} RestoringCompletesIff(h: Host, s: System, order: seq<Name>, entries: map<string, Entry>, unsaved: set<string>,
                                                 needs: Graph, ready: set<Name>)
    requires PassSetup(h, s.plugins, order, needs, ready)
    ensures RestoredAll(h, s, order, entries, unsaved).1 == Completed
       <==> forall i :: 0 <= i < |order| ==> !EndsAt(h, s.plugins, order, needs, ready, i)
    decreases |order|
  {
    if order != [] {
      var t, outcome := FirstOfPass(h, s, order, entries, unsaved, needs, ready);
      assert order[..0] == [];
      assert outcome == Completed <==> !EndsAt(h, s.plugins, order, needs, ready, 0);
      if outcome == Completed {
        RestoringCompletesIff(h, t, order[1..], entries, unsaved, needs, ready);
        LaterTurns(h, s.plugins, t.plugins, order, needs, ready);
      }
    }
  }

  lemma NeedsStay(h: Host, ps: Registry, ps': Registry, order: seq<Name>, needs: Graph)
    requires order != [] && Elems(order) <= needs.Keys && AllWaiting(ps, order) && SameDefs(ps, ps')
    requires forall i :: 0 <= i < |order| ==> order[i] in needs && needs[order[i]] == NeedsOf(h.pk, ps[order[i]].def)
    ensures forall i :: 0 <= i < |order[1..]| ==>
              order[1..][i] in ps' && order[1..][i] in needs && needs[order[1..][i]] == NeedsOf(h.pk, ps'[order[1..][i]].def)
  {
    forall i | 0 <= i < |order[1..]|
      ensures order[1..][i] in ps' && order[1..][i] in needs && needs[order[1..][i]] == NeedsOf(h.pk, ps'[order[1..][i]].def)
    {
      assert order[1..][i] == order[i + 1] && Waiting(ps, order[i + 1]);
    }
  }

  lemma WaitingAfter(ps: Registry, ps': Registry, order: seq<Name>)
    requires order != [] && AllWaiting(ps, order) && SameDefs(ps, ps')
    requires forall n :: n in ps && n != order[0] ==> ps'[n] == ps[n]
    ensures AllWaiting(ps', order[1..])
  {
    var rest := order[1..];
    forall i | 0 <= i < |rest| ensures Waiting(ps', rest[i]) {
      assert rest[i] == order[i + 1] && Waiting(ps, order[i + 1]);
    }
  }

  lemma ReadyIsFixed(h: Host, ps: Registry, ps': Registry)
    requires SameDefs(ps, ps')
    ensures ReadyNames(h, ps) == ReadyNames(h, ps')
  {
    forall n | n in ps ensures Ready(h, ps, n) <==> Ready(h, ps', n) {
    }
  }


  // ---- The pending plugins ------------------------------------------------------

  /** Stored as enabled, registered, and waiting in the initialized state. */
  function PendingNames(s: System): set<Name>
  {
    set n | n in EnabledFlags(s.manifest) && n in s.plugins && s.plugins[n].status == Initialized
  }

  /** What the pending plugins need of each other. */
  ghost function PendingGraph(h: Host, s: System): Graph
  {
    map n | n in PendingNames(s) :: NeedsOf(h.pk, s.plugins[n].def) * PendingNames(s)
  }

  lemma {:induction false} PendingIsStored(ps: Registry, es: seq<Entry>, k: nat) returns (i: nat)
    requires Named(ps) && k < |PendingPlugins(ps, es)|
    ensures i < |es| && es[i].name == PendingPlugins(ps, es)[k].name
    ensures Waiting(ps, es[i].name) && PendingPlugins(ps, es)[k] == ps[es[i].name].def.meta
  {
    var front := PendingPlugins(ps, es[..|es| - 1]);
    if k < |front| {
      i := PendingIsStored(ps, es[..|es| - 1], k);
    } else {
      i := |es| - 1;
    }
  }

  lemma {:induction false} StoredIsPending(ps: Registry, es: seq<Entry>, i: nat) returns (k: nat)
    requires Named(ps) && i < |es| && Waiting(ps, es[i].name)
    ensures k < |PendingPlugins(ps, es)| && PendingPlugins(ps, es)[k].name == es[i].name
  {
    var front := PendingPlugins(ps, es[..|es| - 1]);
    if i < |es| - 1 {
      k := StoredIsPending(ps, es[..|es| - 1], i);
    } else {
      k := |front|;
    }
  }

  lemma {:induction false} PendingIsDistinct(ps: Registry, es: seq<Entry>)
    requires Named(ps) && DistinctEntries(es)
    ensures Distinct(NamesOf(PendingPlugins(ps, es)))
  {
    if es != [] {
      var last, front := es[|es| - 1], es[..|es| - 1];
      var fs := PendingPlugins(ps, front);
      PendingIsDistinct(ps, front);
      var ms := PendingPlugins(ps, es);
      if !Waiting(ps, last.name) {
        assert ms == fs;
      } else {
        assert ms == fs + [ps[last.name].def.meta] && ms[..|ms| - 1] == fs;
        forall i | 0 <= i < |fs| ensures fs[i].name != last.name {
          var k := PendingIsStored(ps, front, i);
          assert es[k].name != es[|es| - 1].name;
        }
      }
    }
  }

  lemma InSetIsNeeds(pk: Packaging, def: PluginDef, names: set<Name>)
    ensures InSet(pk, def.meta.dependencies, names) == NeedsOf(pk, def) * names
  {
    forall n ensures n in InSet(pk, def.meta.dependencies, names) <==> n in NeedsOf(pk, def) * names {
      if n in NeedsOf(pk, def) * names {
        var i :| 0 <= i < |def.meta.dependencies| && Parse(pk, def.meta.dependencies[i]).Some?
          && Parse(pk, def.meta.dependencies[i]).value.name == n;
        assert def.meta.dependencies[i] in def.meta.dependencies;
      }
      if n in InSet(pk, def.meta.dependencies, names) {
        var raw :| raw in def.meta.dependencies && Parse(pk, raw).Some? && Parse(pk, raw).value.name == n;
        var i :| 0 <= i < |def.meta.dependencies| && def.meta.dependencies[i] == raw;
      }
    }
  }

  /** The list the boot sorts. */
  ghost function PendingList(s: System): seq<Metadata>
    requires s.manifest.Valid()
  {
    PendingPlugins(s.plugins, EnabledEntries(s.manifest, s.configs, s.manifest.keys))
  }

  lemma PendingListMember(s: System, n: Name)
    requires Named(s.plugins) && s.manifest.Valid()
    ensures n in Elems(NamesOf(PendingList(s))) <==> n in PendingNames(s)
  {
    var es := EnabledEntries(s.manifest, s.configs, s.manifest.keys);
    EnabledEntriesMeaning(s.manifest, s.configs, s.manifest.keys);
    if n in PendingNames(s) {
      assert n in Elems(s.manifest.keys);
      var i :| 0 <= i < |es| && es[i].name == n;
      var k := StoredIsPending(s.plugins, es, i);
      assert NamesOf(PendingList(s))[k] == n;
    }
    if n in Elems(NamesOf(PendingList(s))) {
      var k: nat :| k < |NamesOf(PendingList(s))| && NamesOf(PendingList(s))[k] == n;
      var i := PendingIsStored(s.plugins, es, k);
    }
  }

  lemma PendingListAt(s: System, k: nat)
    requires Named(s.plugins) && s.manifest.Valid() && k < |PendingList(s)|
    ensures var n := PendingList(s)[k].name; n in s.plugins && PendingList(s)[k] == s.plugins[n].def.meta
  {
    var i := PendingIsStored(s.plugins, EnabledEntries(s.manifest, s.configs, s.manifest.keys), k);
  }

  lemma PendingGraphAt(h: Host, s: System, n: Name)
    requires Named(s.plugins) && s.manifest.Valid() && n in PendingNames(s) && Distinct(NamesOf(PendingList(s)))
    requires Elems(NamesOf(PendingList(s))) == PendingNames(s)
    ensures InSetGraph(h.pk, PendingList(s), PendingNames(s))[n] == PendingGraph(h, s)[n]
  {
    var metas, names := PendingList(s), NamesOf(PendingList(s));
    assert n in Elems(names);
    var k: nat :| k < |names| && names[k] == n;
    PendingListAt(s, k);
    forall j | k < j < |metas| ensures metas[j].name != metas[k].name { assert names[j] != names[k]; }
    LastOneCounts(h.pk, metas, PendingNames(s), k);
    InSetIsNeeds(h.pk, s.plugins[n].def, PendingNames(s));
  }

  /** The graph it sorts by. */
  lemma PendingSetup(h: Host, s: System)
    requires Named(s.plugins) && s.manifest.Valid()
    ensures var names := NamesOf(PendingList(s));
      && Distinct(names) && Elems(names) == PendingNames(s)
      && InSetGraph(h.pk, PendingList(s), Elems(names)) == PendingGraph(h, s)
  {
    var metas, names := PendingList(s), NamesOf(PendingList(s));
    EnabledEntriesMeaning(s.manifest, s.configs, s.manifest.keys);
    PendingIsDistinct(s.plugins, EnabledEntries(s.manifest, s.configs, s.manifest.keys));
    forall n ensures n in Elems(names) <==> n in PendingNames(s) { PendingListMember(s, n); }
    var g := InSetGraph(h.pk, metas, Elems(names));
    forall n | n in PendingNames(s) ensures g[n] == PendingGraph(h, s)[n] { PendingGraphAt(h, s, n); }
  }

  /** The sorted pending plugins: each once, all waiting. */
  lemma PendingOrder(h: Host, s: System)
    requires Named(s.plugins) && s.manifest.Valid()
    ensures var order := OrderOf(h.pk, PendingList(s));
      && Elems(NamesOf(PendingList(s))) == Elems(order) == PendingNames(s)
      && order == Sort(PendingGraph(h, s), NamesOf(PendingList(s)))
      && AllWaiting(s.plugins, order)
      && forall i :: 0 <= i < |order| ==> order[i] in PendingNames(s)
  {
    PendingSetup(h, s);
    SortPermutes(PendingGraph(h, s), NamesOf(PendingList(s)));
    var order := OrderOf(h.pk, PendingList(s));
    forall i | 0 <= i < |order| ensures order[i] in PendingNames(s) { assert order[i] in Elems(order); }
  }

  /** The pass of a boot over the names it gets to. */
  ghost function PassOf(h: Host, s: System, order: seq<Name>): set<Name>
    requires Elems(order) <= PendingNames(s)
  {
    Pass(order, ReadyNames(h, s.plugins), NeedsMap(h.pk, s.plugins, PendingNames(s)), EnabledNames(s.plugins))
  }

  /** A boot enables exactly what one gated pass in sorted order does, over all pending
      plugins if it completes and over the first `k` of them if not. */
  lemma BootIsPass(h: Host, s: System, unsaved: set<string>) returns (k: nat)
    requires Named(s.plugins) && s.manifest.Valid()
    ensures SameDefs(s.plugins, Booted(h, s, unsaved).0.plugins)
    ensures var order := OrderOf(h.pk, PendingList(s));
      && k <= |order| && Elems(order) == PendingNames(s) && Elems(order[..k]) <= PendingNames(s)
      && (Booted(h, s, unsaved).1 == Completed ==> order[..k] == order)
      && EnabledNames(Booted(h, s, unsaved).0.plugins) == PassOf(h, s, order[..k])
  {
    PendingNeeds(h, s);
    var order := OrderOf(h.pk, PendingList(s));
    k := RestoredAllIsPass(h, s, order, KnownEntries(s.plugins, EnabledEntries(s.manifest, s.configs, s.manifest.keys)),
                           unsaved, NeedsMap(h.pk, s.plugins, PendingNames(s)), ReadyNames(h, s.plugins));
    assert order[..|order|] == order;
  }

  lemma PendingNeeds(h: Host, s: System)
    requires Named(s.plugins) && s.manifest.Valid()
    ensures var order, needs := OrderOf(h.pk, PendingList(s)), NeedsMap(h.pk, s.plugins, PendingNames(s));
      PassSetup(h, s.plugins, order, needs, ReadyNames(h, s.plugins)) && Elems(order) == needs.Keys
  {
    PendingOrder(h, s);
  }

  /** The order of the boot is the sort of its graph. */
  lemma BootOrderIsSort(h: Host, s: System)
    requires Named(s.plugins) && s.manifest.Valid()
    ensures var g, names := PendingGraph(h, s), NamesOf(PendingList(s));
      && Pending(g, names, NeedsMap(h.pk, s.plugins, PendingNames(s)))
      && OrderOf(h.pk, PendingList(s)) == Sort(g, names) && Elems(Sort(g, names)) == g.Keys
  {
    PendingSetup(h, s);
    PendingOrder(h, s);
  }

  /** The rule of the boot: a pending plugin that is ready and whose needs are in
      the set is in the set. */
  ghost predicate ClosedUnderBoot(h: Host, s: System, x: set<Name>)
  {
    forall n :: n in PendingNames(s) && Ready(h, s.plugins, n) && NeedsOf(h.pk, s.plugins[n].def) <= x ==> n in x
  }

  /** What any boot enables, whether or not some plugin ends it: only pending plugins
      that are ready and whose needs are enabled, nothing beyond the least closed
      set, and no plugin on or leading to a cycle of pending plugins. */
  lemma BootIsSafe(h: Host, s: System, unsaved: set<string>)
    requires Named(s.plugins) && s.manifest.Valid()
    ensures var r := EnabledNames(Booted(h, s, unsaved).0.plugins);
      && EnabledNames(s.plugins) <= r <= EnabledNames(s.plugins) + PendingNames(s)
      && (forall n :: n in PendingNames(s) && n in r ==> Ready(h, s.plugins, n) && NeedsOf(h.pk, s.plugins[n].def) <= r)
      && (forall x :: EnabledNames(s.plugins) <= x && ClosedUnderBoot(h, s, x) ==> r <= x)
      && (forall n :: n in PendingNames(s) && LeadsToCycle(PendingGraph(h, s), n) ==> n !in r)
  {
    var k := BootIsPass(h, s, unsaved);
    var needs, ready := NeedsMap(h.pk, s.plugins, PendingNames(s)), ReadyNames(h, s.plugins);
    var order, r := OrderOf(h.pk, PendingList(s)), EnabledNames(Booted(h, s, unsaved).0.plugins);
    forall n | n in PendingNames(s) && n in r ensures Ready(h, s.plugins, n) && NeedsOf(h.pk, s.plugins[n].def) <= r {
      PassIsSupported(order[..k], ready, needs, EnabledNames(s.plugins), n);
    }
    forall x | EnabledNames(s.plugins) <= x && ClosedUnderBoot(h, s, x) ensures r <= x {
      assert ClosedUnderRule(x, Elems(order[..k]), ready, needs);
      PassIsLeast(order[..k], ready, needs, EnabledNames(s.plugins), x);
    }
    PrefixEnablesLess(order, k, ready, needs, EnabledNames(s.plugins));
    forall n | n in PendingNames(s) && LeadsToCycle(PendingGraph(h, s), n) ensures n !in r { BootLeavesOut(h, s, n); }
  }

  lemma BootLeavesOut(h: Host, s: System, n: Name)
    requires Named(s.plugins) && s.manifest.Valid() && n in PendingNames(s) && LeadsToCycle(PendingGraph(h, s), n)
    ensures Elems(OrderOf(h.pk, PendingList(s))) <= PendingNames(s) && n !in PassOf(h, s, OrderOf(h.pk, PendingList(s)))
  {
    BootOrderIsSort(h, s);
    CyclesStayOut(PendingGraph(h, s), NamesOf(PendingList(s)), ReadyNames(h, s.plugins),
                  NeedsMap(h.pk, s.plugins, PendingNames(s)), EnabledNames(s.plugins), n);
  }

  lemma BootEnablesIff(h: Host, s: System, n: Name)
    requires Named(s.plugins) && s.manifest.Valid() && n in PendingNames(s)
    ensures Elems(OrderOf(h.pk, PendingList(s))) <= PendingNames(s)
    ensures var r := PassOf(h, s, OrderOf(h.pk, PendingList(s)));
      n in r <==> Ready(h, s.plugins, n) && NeedsOf(h.pk, s.plugins[n].def) <= r
  {
    BootOrderIsSort(h, s);
    FixedPointAt(PendingGraph(h, s), NamesOf(PendingList(s)), ReadyNames(h, s.plugins),
                 NeedsMap(h.pk, s.plugins, PendingNames(s)), EnabledNames(s.plugins), n);
  }

  /** The boot computes a least fixed point in one pass. Of the plugins stored as
      enabled a boot that completes enables one exactly when its own gates pass and
      every dependency is in range and itself enabled; and the outcome is the least
      set with these properties. */
  lemma BootIsLeastFixedPoint(h: Host, s: System, unsaved: set<string>)
    requires Named(s.plugins) && s.manifest.Valid() && Booted(h, s, unsaved).1 == Completed
    ensures var r := EnabledNames(Booted(h, s, unsaved).0.plugins);
      && EnabledNames(s.plugins) <= r <= EnabledNames(s.plugins) + PendingNames(s)
      && (forall n :: n in PendingNames(s) ==> (n in r <==> Ready(h, s.plugins, n) && NeedsOf(h.pk, s.plugins[n].def) <= r))
      && (forall x :: EnabledNames(s.plugins) <= x && ClosedUnderBoot(h, s, x) ==> r <= x)
      && (forall n :: n in PendingNames(s) && LeadsToCycle(PendingGraph(h, s), n) ==> n !in r)
  {
    BootIsSafe(h, s, unsaved);
    var k := BootIsPass(h, s, unsaved);
    var r := EnabledNames(Booted(h, s, unsaved).0.plugins);
    forall n | n in PendingNames(s) ensures n in r <==> Ready(h, s.plugins, n) && NeedsOf(h.pk, s.plugins[n].def) <= r {
      BootEnablesIff(h, s, n);
    }
  }

  /** The names the boot enables if nothing ends it. */
  ghost function BootResult(h: Host, s: System): set<Name>
    requires Named(s.plugins) && s.manifest.Valid()
  {
    PendingOrder(h, s);
    PassOf(h, s, OrderOf(h.pk, PendingList(s)))
  }

  /** A plugin's check sees the final answer on every dependency. */
  lemma TurnSeesResult(h: Host, s: System, p: nat)
    requires Named(s.plugins) && s.manifest.Valid() && p < |OrderOf(h.pk, PendingList(s))|
    requires OrderOf(h.pk, PendingList(s))[p] in s.plugins && Elems(OrderOf(h.pk, PendingList(s))[..p]) <= PendingNames(s)
    ensures EndsBoot(h.pk, s.plugins, s.plugins[OrderOf(h.pk, PendingList(s))[p]].def, PassOf(h, s, OrderOf(h.pk, PendingList(s))[..p]))
       <==> EndsBoot(h.pk, s.plugins, s.plugins[OrderOf(h.pk, PendingList(s))[p]].def, BootResult(h, s))
  {
    var order := OrderOf(h.pk, PendingList(s));
    PendingNeeds(h, s);
    BootOrderIsSort(h, s);
    var def := s.plugins[order[p]].def;
    forall i | 0 <= i < |def.meta.dependencies| && Parse(h.pk, def.meta.dependencies[i]).Some?
      ensures Parse(h.pk, def.meta.dependencies[i]).value.name in PassOf(h, s, order[..p])
         <==> Parse(h.pk, def.meta.dependencies[i]).value.name in BootResult(h, s)
    {
      NeedsAreSettled(PendingGraph(h, s), NamesOf(PendingList(s)), ReadyNames(h, s.plugins),
                      NeedsMap(h.pk, s.plugins, PendingNames(s)), EnabledNames(s.plugins), p,
                      Parse(h.pk, def.meta.dependencies[i]).value.name);
    }
    StumblesAlike(h.pk, s.plugins, s.plugins, def.meta.dependencies, PassOf(h, s, order[..p]), BootResult(h, s));
  }

  /** Exactly when a boot completes: no pending plugin has a broken environment, or a
      dependency string that does not parse behind dependencies that are all met. */
  lemma BootCompletesIff(h: Host, s: System, unsaved: set<string>)
    requires Named(s.plugins) && s.manifest.Valid()
    ensures Booted(h, s, unsaved).1 == Completed
       <==> forall n :: n in PendingNames(s) ==> !EndsBoot(h.pk, s.plugins, s.plugins[n].def, BootResult(h, s))
  {
    PendingNeeds(h, s);
    var order := OrderOf(h.pk, PendingList(s));
    var needs, ready := NeedsMap(h.pk, s.plugins, PendingNames(s)), ReadyNames(h, s.plugins);
    RestoringCompletesIff(h, s, order, KnownEntries(s.plugins, EnabledEntries(s.manifest, s.configs, s.manifest.keys)), unsaved, needs, ready);
    forall p | 0 <= p < |order|
      ensures EndsAt(h, s.plugins, order, needs, ready, p) <==> EndsBoot(h.pk, s.plugins, s.plugins[order[p]].def, BootResult(h, s))
    {
      assert Elems(order[..p]) <= Elems(order);
      TurnSeesResult(h, s, p);
    }
    if n :| n in PendingNames(s) && EndsBoot(h.pk, s.plugins, s.plugins[n].def, BootResult(h, s)) {
      assert n in Elems(order);
      var p :| 0 <= p < |order| && order[p] == n;
      assert EndsAt(h, s.plugins, order, needs, ready, p);
    }
  }

  /** The order in which plugins are stored does not matter: a boot completes with
      either manifest or with neither, and then enables the same plugins. */
  lemma BootIgnoresStoredOrder(h: Host, s: System, t: System, unsaved: set<string>, unsaved': set<string>)
    requires Named(s.plugins) && s.manifest.Valid() && t.manifest.Valid()
    requires s.plugins == t.plugins && EnabledFlags(s.manifest) == EnabledFlags(t.manifest)
    ensures Booted(h, s, unsaved).1 == Completed <==> Booted(h, t, unsaved').1 == Completed
    ensures Booted(h, s, unsaved).1 == Completed ==>
      EnabledNames(Booted(h, s, unsaved).0.plugins) == EnabledNames(Booted(h, t, unsaved').0.plugins)
  {
    SameResult(h, s, t);
    BootCompletesIff(h, s, unsaved);
    BootCompletesIff(h, t, unsaved');
    var i := BootIsPass(h, s, unsaved);
    var j := BootIsPass(h, t, unsaved');
  }

  lemma SameResult(h: Host, s: System, t: System)
    requires Named(s.plugins) && s.manifest.Valid() && t.manifest.Valid()
    requires s.plugins == t.plugins && EnabledFlags(s.manifest) == EnabledFlags(t.manifest)
    ensures PendingNames(s) == PendingNames(t) && BootResult(h, s) == BootResult(h, t)
  {
    assert PendingNames(s) == PendingNames(t) && PendingGraph(h, s) == PendingGraph(h, t);
    BootOrderIsSort(h, s);
    BootOrderIsSort(h, t);
    OrderIndependent(PendingGraph(h, s), NamesOf(PendingList(s)), NamesOf(PendingList(t)), ReadyNames(h, s.plugins),
                     NeedsMap(h.pk, s.plugins, PendingNames(s)), EnabledNames(s.plugins));
  }
}
