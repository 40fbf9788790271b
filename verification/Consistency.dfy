/** What every step of the plugin lifecycle keeps: the enabled plugins are closed
    under their dependencies, in range, gated and free of cycles. */
module Consistency {
  import opened Graphs
  import opened Versioning
  import opened DependencyResolver
  import opened ConfigStore
  import opened Lifecycle

  /** The names a plugin's declared dependencies refer to. */
  function NeedsOf(pk: Packaging, def: PluginDef): set<Name>
  {
    set i | 0 <= i < |def.meta.dependencies| && Parse(pk, def.meta.dependencies[i]).Some?
      :: Parse(pk, def.meta.dependencies[i]).value.name
  }

  /** Who needs whom, among the enabled plugins. */
  function EnabledGraph(pk: Packaging, ps: Registry): Graph
  {
    map n | n in EnabledNames(ps) :: NeedsOf(pk, ps[n].def)
  }

  ghost predicate Named(ps: Registry)
  {
    forall n :: n in ps ==> ps[n].def.meta.name == n
  }

  ghost predicate AllSatisfied(pk: Packaging, ps: Registry, def: PluginDef)
  {
    forall i :: 0 <= i < |def.meta.dependencies| ==> Satisfied(pk, ps, def.meta.dependencies[i])
  }

  predicate Gated(h: Host, def: PluginDef)
  {
    def.environmentOk && Licensed(h, def) && def.enableHookOk
  }

  ghost predicate Consistent(h: Host, ps: Registry)
  {
    && Named(ps)
    && (forall n :: n in EnabledNames(ps) ==> AllSatisfied(h.pk, ps, ps[n].def) && Gated(h, ps[n].def))
    && Acyclic(EnabledGraph(h.pk, ps))
  }

  /** Every name the plugin needs is also listed bare, so that the textual check
      of `disable_plugin` sees it. Holds for bare-name dependencies. */
  ghost predicate ListsNeedsBare(pk: Packaging, def: PluginDef)
  {
    forall n :: n in NeedsOf(pk, def) ==> n in def.meta.dependencies
  }

  // ---- Enabling -------------------------------------------------------------------

  lemma SatisfiedNeeds(pk: Packaging, ps: Registry, def: PluginDef)
    requires AllSatisfied(pk, ps, def)
    ensures NeedsOf(pk, def) <= EnabledNames(ps)
  {
    forall n | n in NeedsOf(pk, def) ensures n in EnabledNames(ps) {
      var i :| 0 <= i < |def.meta.dependencies| && Parse(pk, def.meta.dependencies[i]).Some?
        && Parse(pk, def.meta.dependencies[i]).value.name == n;
      assert Satisfied(pk, ps, def.meta.dependencies[i]);
    }
  }

  /** A node nobody old needs, and whose own needs are old, adds no cycle. */
  lemma AddingSinkKeepsAcyclic(old': Graph, g: Graph, x: Name)
    requires Acyclic(old') && x !in old' && g.Keys == old'.Keys + {x}
    requires forall n :: n in old' ==> g[n] == old'[n] && g[n] <= old'.Keys
    requires g[x] <= old'.Keys
    ensures Acyclic(g)
  {
    forall n | n in g ensures !LeadsToCycle(g, n) {
      forall w | IsWalk(g, w) && w[0] == n ensures !Repeats(w) {
        forall i | 0 < i < |w| ensures w[i] in old' { assert w[(i - 1) + 1] in g[w[i - 1]]; }
        if w[0] in old' {
          assert IsWalk(old', w);
          assert !LeadsToCycle(old', w[0]);
        } else if |w| > 1 {
          var v := w[1..];
          forall i | 0 <= i < |v| - 1 ensures v[i + 1] in old'[v[i]] { assert w[i + 2] in g[w[i + 1]]; }
          assert IsWalk(old', v);
          assert !LeadsToCycle(old', v[0]);
          forall i, j | 0 <= i < j < |w| ensures w[i] != w[j] {
            if i > 0 { assert v[i - 1] == w[i] && v[j - 1] == w[j]; }
          }
        }
      }
    }
  }

  lemma EnablingKeepsConsistent(h: Host, ps: Registry, name: string)
    requires Consistent(h, ps) && name in ps && ps[name].status != Enabled
    requires AllSatisfied(h.pk, ps, ps[name].def) && Gated(h, ps[name].def)
    ensures Consistent(h, WithStatus(ps, name, Enabled))
    ensures EnabledNames(WithStatus(ps, name, Enabled)) == EnabledNames(ps) + {name}
  {
    var ps' := WithStatus(ps, name, Enabled);
    forall n | n in EnabledNames(ps') ensures AllSatisfied(h.pk, ps', ps'[n].def) && Gated(h, ps'[n].def) {
      forall i | 0 <= i < |ps'[n].def.meta.dependencies| ensures Satisfied(h.pk, ps', ps'[n].def.meta.dependencies[i]) {
        assert Satisfied(h.pk, ps, ps[n].def.meta.dependencies[i]);
      }
    }
    forall n | n in EnabledNames(ps') ensures NeedsOf(h.pk, ps'[n].def) <= EnabledNames(ps) {
      SatisfiedNeeds(h.pk, ps, ps[n].def);
    }
    AddingSinkKeepsAcyclic(EnabledGraph(h.pk, ps), EnabledGraph(h.pk, ps'), name);
  }

  /** Statuses other than enabled, and configurations, do not matter. */
  ghost predicate SameEnabled(ps: Registry, ps': Registry)
  {
    && (forall n :: n in EnabledNames(ps) ==> n in ps' && ps'[n].def == ps[n].def)
    && EnabledNames(ps') == EnabledNames(ps)
  }

  lemma SameEnabledKeepsConsistent(h: Host, ps: Registry, ps': Registry)
    requires Consistent(h, ps) && SameEnabled(ps, ps') && Named(ps')
    ensures Consistent(h, ps')
  {
    forall n | n in EnabledNames(ps') ensures AllSatisfied(h.pk, ps', ps'[n].def) {
      forall i | 0 <= i < |ps'[n].def.meta.dependencies| ensures Satisfied(h.pk, ps', ps'[n].def.meta.dependencies[i]) {
        assert Satisfied(h.pk, ps, ps[n].def.meta.dependencies[i]);
      }
    }
    assert EnabledGraph(h.pk, ps') == EnabledGraph(h.pk, ps);
  }

  lemma EnableKeepsConsistent(h: Host, s: System, name: string, fault: Fault)
    requires Consistent(h, s.plugins)
    ensures Consistent(h, EnabledPlugin(h, s, name, fault).0.plugins)
    ensures var (t, outcome) := EnabledPlugin(h, s, name, fault);
      EnabledNames(t.plugins) == if outcome == Done then EnabledNames(s.plugins) + {name} else EnabledNames(s.plugins)
  {
    if EnabledPlugin(h, s, name, fault).1 == Done {
      CheckMeaning(h.pk, s.plugins, s.plugins[name].def.meta.dependencies);
      EnablingKeepsConsistent(h, s.plugins, name);
    }
  }

  lemma CliEnableKeepsConsistent(h: Host, s: System, name: string, fault: Fault)
    requires Consistent(h, s.plugins)
    ensures Consistent(h, CliEnabled(h, s, name, fault).0.plugins)
  {
    if name in s.plugins && s.plugins[name].status == Disabled {
      var t := s.(plugins := WithStatus(s.plugins, name, Initialized));
      assert SameEnabled(s.plugins, t.plugins);
      SameEnabledKeepsConsistent(h, s.plugins, t.plugins);
      EnableKeepsConsistent(h, t, name, fault);
    } else {
      EnableKeepsConsistent(h, s, name, fault);
    }
  }

  // ---- Disabling ------------------------------------------------------------------

  lemma DisablingUnneeded(h: Host, ps: Registry, name: string)
    requires Consistent(h, ps) && name in ps && ps[name].status == Enabled
    requires forall n :: n in EnabledNames(ps) ==> name !in NeedsOf(h.pk, ps[n].def)
    ensures Consistent(h, WithStatus(ps, name, Disabled))
  {
    var ps' := WithStatus(ps, name, Disabled);
    forall n | n in EnabledNames(ps') ensures AllSatisfied(h.pk, ps', ps'[n].def) {
      forall i | 0 <= i < |ps[n].def.meta.dependencies| ensures Satisfied(h.pk, ps', ps[n].def.meta.dependencies[i]) {
        assert Satisfied(h.pk, ps, ps[n].def.meta.dependencies[i]);
        assert Parse(h.pk, ps[n].def.meta.dependencies[i]).value.name in NeedsOf(h.pk, ps[n].def);
      }
    }
    var g, g' := EnabledGraph(h.pk, ps), EnabledGraph(h.pk, ps');
    forall n | n in g' ensures !LeadsToCycle(g', n) {
      if LeadsToCycle(g', n) { SubgraphCycles(g', g, n); }
    }
  }

  lemma SelfNeedIsCycle(g: Graph, n: Name)
    requires n in g && n in g[n]
    ensures LeadsToCycle(g, n)
  {
    var w := [n, n];
    assert IsWalk(g, w) && w[0] == w[1] == n;
    assert Repeats(w);
  }

  lemma DisablingNeeded(h: Host, ps: Registry, name: string, n: string)
    requires Consistent(h, ps) && name in ps && ps[name].status == Enabled
    requires n in EnabledNames(ps) && name in NeedsOf(h.pk, ps[n].def)
    ensures !Consistent(h, WithStatus(ps, name, Disabled))
  {
    var ps' := WithStatus(ps, name, Disabled);
    if n == name {
      SelfNeedIsCycle(EnabledGraph(h.pk, ps), name);
      assert false;
    } else if Consistent(h, ps') {
      assert n in EnabledNames(ps');
      SatisfiedNeeds(h.pk, ps', ps'[n].def);
      assert false;
    }
  }

  /** If an enabled plugin needs the name, an enabled plugin lists it bare. A ranged
      dependency such as "email>=26.7" does not match the bare name, so it alone does
      not hold `email`. */
  ghost predicate Held(pk: Packaging, ps: Registry, name: string)
  {
    (exists n :: n in EnabledNames(ps) && name in NeedsOf(pk, ps[n].def)) ==> Dependents(ps, name) != {}
  }

  /** Disabling keeps the enabled plugins consistent exactly when the name is held, or
      cannot be disabled anyway: it is not enabled, or its own hook refuses. */
  lemma DisableKeepsConsistentIff(h: Host, s: System, name: string, fault: Fault)
    requires Consistent(h, s.plugins)
    ensures Consistent(h, DisabledPlugin(s, name, fault).0.plugins)
       <==> (name in EnabledNames(s.plugins) && s.plugins[name].def.disableHookOk ==> Held(h.pk, s.plugins, name))
  {
    var ps := s.plugins;
    if DisabledPlugin(s, name, fault).1 == Done {
      if n :| n in EnabledNames(ps) && name in NeedsOf(h.pk, ps[n].def) {
        DisablingNeeded(h, ps, name, n);
      } else {
        DisablingUnneeded(h, ps, name);
      }
    }
  }

  /** Where plugins list what they need bare, every name is held. */
  lemma BareNamesAreHeld(pk: Packaging, ps: Registry, name: string)
    requires forall n :: n in ps ==> ListsNeedsBare(pk, ps[n].def)
    ensures Held(pk, ps, name)
  {
    if n :| n in EnabledNames(ps) && name in NeedsOf(pk, ps[n].def) {
      assert ListsNeedsBare(pk, ps[n].def) && n in Dependents(ps, name);
    }
  }
}
