/** One pass over the sorted names, enabling what can be enabled, computes a
    least fixed point: the heart of the gated boot. */
module OnePass {
  import opened Graphs
  import opened TopologicalOrder

  /** Enable, in list order, each ready name whose needs are enabled by then. */
  function Pass(order: seq<Name>, ready: set<Name>, needs: Graph, enabled: set<Name>): (r: set<Name>)
    requires Elems(order) <= needs.Keys
    ensures enabled <= r <= enabled + Elems(order)
  {
    if order == [] then enabled
    else
      assert order[0] in Elems(order) && Elems(order[1..]) <= Elems(order);
      var n := order[0];
      Pass(order[1..], ready, needs, if n in ready && needs[n] <= enabled then enabled + {n} else enabled)
  }

  /** The rule of the boot, as a closure condition on a set of enabled names. */
  ghost predicate ClosedUnderRule(x: set<Name>, names: set<Name>, ready: set<Name>, needs: Graph)
    requires names <= needs.Keys
  {
    forall n :: n in names && n in ready && needs[n] <= x ==> n in x
  }

  lemma {:induction false} PassIsLeast(order: seq<Name>, ready: set<Name>, needs: Graph, enabled: set<Name>, x: set<Name>)
    requires Elems(order) <= needs.Keys
    requires enabled <= x && ClosedUnderRule(x, Elems(order), ready, needs)
    ensures Pass(order, ready, needs, enabled) <= x
  {
    if order != [] {
      var n := order[0];
      assert n in Elems(order) && Elems(order[1..]) <= Elems(order);
      PassIsLeast(order[1..], ready, needs, if n in ready && needs[n] <= enabled then enabled + {n} else enabled, x);
    }
  }

  /** Whatever ends enabled had its needs met. */
  lemma {:induction false} PassIsSupported(order: seq<Name>, ready: set<Name>, needs: Graph, enabled: set<Name>, n: Name)
    requires Elems(order) <= needs.Keys
    requires n in Pass(order, ready, needs, enabled) && n !in enabled
    ensures n in order && n in ready && needs[n] <= Pass(order, ready, needs, enabled)
  {
    assert order[0] in Elems(order) && Elems(order[1..]) <= Elems(order);
    var enabled' := if order[0] in ready && needs[order[0]] <= enabled then enabled + {order[0]} else enabled;
    if n !in enabled' {
      PassIsSupported(order[1..], ready, needs, enabled', n);
    }
  }

  /** Splitting the pass at any point. */
  lemma {:induction false} PassAppend(a: seq<Name>, b: seq<Name>, ready: set<Name>, needs: Graph, enabled: set<Name>)
    requires Elems(a) <= needs.Keys && Elems(b) <= needs.Keys && Elems(a + b) <= needs.Keys
    ensures Pass(a + b, ready, needs, enabled) == Pass(b, ready, needs, Pass(a, ready, needs, enabled))
  {
    if a == [] {
      assert a + b == b;
    } else {
      assert a[0] in Elems(a) && Elems(a[1..]) <= Elems(a);
      assert (a + b)[0] == a[0] && (a + b)[1..] == a[1..] + b;
      var n := a[0];
      assert Elems(a[1..] + b) <= Elems(a + b);
      PassAppend(a[1..], b, ready, needs, if n in ready && needs[n] <= enabled then enabled + {n} else enabled);
    }
  }

  /** Names that each need somebody of the group stay out together. */
  lemma {:induction false} MutualNeedsStayOut(order: seq<Name>, ready: set<Name>, needs: Graph, enabled: set<Name>, group: set<Name>)
    requires Elems(order) <= needs.Keys && Elems(order) <= group
    requires group <= needs.Keys && group !! enabled
    requires forall n :: n in group ==> needs[n] * group != {}
    ensures Pass(order, ready, needs, enabled) == enabled
  {
    if order != [] {
      assert order[0] in Elems(order) && Elems(order[1..]) <= Elems(order);
      assert needs[order[0]] * group != {};
      MutualNeedsStayOut(order[1..], ready, needs, enabled, group);
    }
  }

  /** A ready name that needs nothing listed at or after its own place, and all
      of whose needs end up enabled, was enabled at its turn. */
  lemma EnabledAtItsTurn(a: seq<Name>, n: Name, b: seq<Name>, ready: set<Name>, needs: Graph, enabled: set<Name>)
    requires Elems(a + [n] + b) <= needs.Keys && n in needs
    requires n in ready && needs[n] <= Pass(a + [n] + b, ready, needs, enabled)
    requires needs[n] !! Elems([n] + b)
    ensures n in Pass(a + [n] + b, ready, needs, enabled)
  {
    assert a + [n] + b == a + ([n] + b);
    assert Elems(a) <= Elems(a + [n] + b) && Elems([n] + b) <= Elems(a + [n] + b);
    PassAppend(a, [n] + b, ready, needs, enabled);
    var mid := Pass(a, ready, needs, enabled);
    assert ([n] + b)[0] == n && ([n] + b)[1..] == b;
  }

  /** The facts every lemma below works from: `needs` are the declared
      dependencies, `g` the part of them among the pending names. */
  ghost predicate Pending(g: Graph, names: seq<Name>, needs: Graph)
  {
    && Distinct(names) && Elems(names) == g.Keys && g.Keys == needs.Keys
    && forall n :: n in g ==> g[n] == needs[n] * g.Keys
  }

  lemma StuckHasStuckNeed(g: Graph, names: seq<Name>, needs: Graph, n: Name)
    requires Pending(g, names, needs) && n in Stuck(g, names, {})
    ensures needs[n] * Elems(Stuck(g, names, {})) != {}
  {
    var good, bad := Resolvable(g, names, {}), Stuck(g, names, {});
    SortPermutes(g, names);
    RoundsOrder(g, names, {});
    var i :| 0 <= i < |bad| && bad[i] == n;
    assert !(g[bad[i]] <= {} + Elems(good));
    var d :| d in g[n] && d !in Elems(good);
    assert d in Elems(good + bad);
    assert d in needs[n] * Elems(bad);
  }

  /** No name that leads to a cycle of pending names is enabled. */
  lemma CyclesStayOut(g: Graph, names: seq<Name>, ready: set<Name>, needs: Graph, enabled: set<Name>, n: Name)
    requires Pending(g, names, needs) && enabled !! g.Keys
    requires n in g && LeadsToCycle(g, n)
    ensures Elems(Sort(g, names)) == g.Keys
    ensures n !in Pass(Sort(g, names), ready, needs, enabled)
  {
    var good, bad := Resolvable(g, names, {}), Stuck(g, names, {});
    SortPermutes(g, names);
    PassAppend(good, bad, ready, needs, enabled);
    StuckIffLeadsToCycle(g, names, n);
    assert n !in good;
    forall x, y | x in good && y in bad ensures x != y {
      var i: nat, j: nat :| i < |good| && good[i] == x && j < |bad| && bad[j] == y;
      PartsDisjoint(g, names, i, j);
    }
    forall m | m in Elems(bad) ensures needs[m] * Elems(bad) != {} {
      StuckHasStuckNeed(g, names, needs, m);
    }
    MutualNeedsStayOut(bad, ready, needs, Pass(good, ready, needs, enabled), Elems(bad));
  }

  lemma DistinctSplit(order: seq<Name>, at: nat, d: Name)
    requires Distinct(order) && at < |order| && d in order[at..]
    ensures d !in order[..at]
  {
    var j :| 0 <= j < |order[at..]| && order[at..][j] == d;
    assert order[at + j] == d;
  }

  /** In sorted order, a resolvable name needs nothing at or after its own place. */
  lemma NeedsComeFirst(g: Graph, names: seq<Name>, needs: Graph, at: nat)
    requires Pending(g, names, needs) && at < |Resolvable(g, names, {})|
    ensures Sort(g, names)[at] in needs
    ensures needs[Sort(g, names)[at]] !! Elems(Sort(g, names)[at..])
  {
    var good, order := Resolvable(g, names, {}), Sort(g, names);
    SortPermutes(g, names);
    RoundsOrder(g, names, {});
    assert good[..at] == order[..at] && order[at] == good[at];
    assert order[at] in Elems(order);
    var n := order[at];
    assert g[good[at]] <= {} + Elems(good[..at]);
    forall d | d in order[at..] ensures d !in needs[n] {
      DistinctSplit(order, at, d);
      assert d !in g[n];
      assert d in Elems(order);
    }
  }

  lemma SplitAt(order: seq<Name>, at: nat)
    requires at < |order|
    ensures order == order[..at] + [order[at]] + order[at + 1..]
  {
  }

  lemma ResolvableIsEnabled(g: Graph, names: seq<Name>, ready: set<Name>, needs: Graph, enabled: set<Name>, at: nat)
    requires Pending(g, names, needs)
    requires at < |Resolvable(g, names, {})|
    requires Elems(Sort(g, names)) <= needs.Keys
    requires Sort(g, names)[at] in ready
    requires Sort(g, names)[at] in needs
    requires needs[Sort(g, names)[at]] <= Pass(Sort(g, names), ready, needs, enabled)
    ensures Sort(g, names)[at] in Pass(Sort(g, names), ready, needs, enabled)
  {
    var order := Sort(g, names);
    NeedsComeFirst(g, names, needs, at);
    var n, a, b := order[at], order[..at], order[at + 1..];
    assert order[at..] == [n] + b;
    SplitAt(order, at);
    EnabledAtItsTurn(a, n, b, ready, needs, enabled);
  }

  /** What the boot computes. Starting from any enabled set, one pass in sorted
      order reaches a set that
      - contains a pending name exactly when it is ready and everything it needs is in the set,
      - is the least such set above the start, and
      - contains no pending name that leads to a cycle of pending names. */
  lemma OnePassIsLeastFixedPoint(g: Graph, names: seq<Name>, ready: set<Name>, needs: Graph, enabled: set<Name>)
    requires Pending(g, names, needs) && enabled !! g.Keys
    ensures Elems(Sort(g, names)) == g.Keys
    ensures var r := Pass(Sort(g, names), ready, needs, enabled);
      && (forall n :: n in g ==> (n in r <==> n in ready && needs[n] <= r))
      && (forall x :: enabled <= x && ClosedUnderRule(x, g.Keys, ready, needs) ==> r <= x)
      && (forall n :: n in g && LeadsToCycle(g, n) ==> n !in r)
  {
    var order := Sort(g, names);
    SortPermutes(g, names);
    var r := Pass(order, ready, needs, enabled);
    forall n | n in g ensures n in r <==> n in ready && needs[n] <= r {
      FixedPointAt(g, names, ready, needs, enabled, n);
    }
    forall x | enabled <= x && ClosedUnderRule(x, g.Keys, ready, needs) ensures r <= x {
      PassIsLeast(order, ready, needs, enabled, x);
    }
    forall n | n in g && LeadsToCycle(g, n) ensures n !in r {
      CyclesStayOut(g, names, ready, needs, enabled, n);
    }
  }

  lemma FixedPointAt(g: Graph, names: seq<Name>, ready: set<Name>, needs: Graph, enabled: set<Name>, n: Name)
    requires Pending(g, names, needs) && enabled !! g.Keys && n in g
    requires Elems(Sort(g, names)) == g.Keys
    ensures n in Pass(Sort(g, names), ready, needs, enabled)
       <==> n in ready && needs[n] <= Pass(Sort(g, names), ready, needs, enabled)
  {
    var good, bad := Resolvable(g, names, {}), Stuck(g, names, {});
    var r := Pass(Sort(g, names), ready, needs, enabled);
    if n in r {
      PassIsSupported(Sort(g, names), ready, needs, enabled, n);
    } else if n in ready && needs[n] <= r {
      StuckIffLeadsToCycle(g, names, n);
      if LeadsToCycle(g, n) {
        StuckHasStuckNeed(g, names, needs, n);
        var d :| d in needs[n] * Elems(bad);
        StuckIffLeadsToCycle(g, names, d);
        CyclesStayOut(g, names, ready, needs, enabled, d);
      } else {
        var at: nat :| at < |good| && good[at] == n;
        assert Sort(g, names)[at] == n;
        ResolvableIsEnabled(g, names, ready, needs, enabled, at);
      }
    }
  }

  lemma PrefixEnablesLess(order: seq<Name>, k: nat, ready: set<Name>, needs: Graph, enabled: set<Name>)
    requires k <= |order| && Elems(order) <= needs.Keys && Elems(order[..k]) <= needs.Keys
    ensures Pass(order[..k], ready, needs, enabled) <= Pass(order, ready, needs, enabled)
    ensures Pass(order, ready, needs, enabled) <= Pass(order[..k], ready, needs, enabled) + Elems(order[k..])
  {
    assert Elems(order[k..]) <= Elems(order);
    assert order[..k] + order[k..] == order;
    PassAppend(order[..k], order[k..], ready, needs, enabled);
  }

  lemma SettledNeedIsEarlier(g: Graph, names: seq<Name>, needs: Graph, p: nat, d: Name)
    requires Pending(g, names, needs) && p < |Sort(g, names)| && Sort(g, names)[p] in needs
    requires d in needs[Sort(g, names)[p]] && d in g && !LeadsToCycle(g, d)
    ensures d !in Sort(g, names)[p..]
  {
    var good, order := Resolvable(g, names, {}), Sort(g, names);
    SortPermutes(g, names);
    StuckIffLeadsToCycle(g, names, d);
    if p < |good| {
      NeedsComeFirst(g, names, needs, p);
      assert d in order[p..] <==> d in Elems(order[p..]);
    } else {
      var i: nat :| i < |good| && good[i] == d;
      assert order[i] == d;
      forall j | p <= j < |order| ensures order[j] != d { assert order[i] != order[j]; }
    }
  }

  /** At its turn a name meets the final answer on everything it needs, on a cycle or
      not: what it needs and is enabled in the end is enabled by then. */
  lemma NeedsAreSettled(g: Graph, names: seq<Name>, ready: set<Name>, needs: Graph, enabled: set<Name>, p: nat, d: Name)
    requires Pending(g, names, needs) && enabled !! g.Keys && Elems(Sort(g, names)) == g.Keys
    requires p < |Sort(g, names)| && Sort(g, names)[p] in needs && d in needs[Sort(g, names)[p]]
    requires Elems(Sort(g, names)[..p]) <= needs.Keys
    ensures d in Pass(Sort(g, names)[..p], ready, needs, enabled) <==> d in Pass(Sort(g, names), ready, needs, enabled)
  {
    var order := Sort(g, names);
    PrefixEnablesLess(order, p, ready, needs, enabled);
    if d in Pass(order, ready, needs, enabled) && d !in enabled {
      if LeadsToCycle(g, d) { CyclesStayOut(g, names, ready, needs, enabled, d); }
      SettledNeedIsEarlier(g, names, needs, p, d);
    }
  }

  /** The result of the boot does not depend on the order the names are stored in. */
  lemma OrderIndependent(g: Graph, a: seq<Name>, b: seq<Name>, ready: set<Name>, needs: Graph, enabled: set<Name>)
    requires Pending(g, a, needs) && Pending(g, b, needs) && enabled !! g.Keys
    ensures Elems(Sort(g, a)) == Elems(Sort(g, b)) == g.Keys
    ensures Pass(Sort(g, a), ready, needs, enabled) == Pass(Sort(g, b), ready, needs, enabled)
  {
    OnePassIsLeastFixedPoint(g, a, ready, needs, enabled);
    OnePassIsLeastFixedPoint(g, b, ready, needs, enabled);
    var ra, rb := Pass(Sort(g, a), ready, needs, enabled), Pass(Sort(g, b), ready, needs, enabled);
    assert ClosedUnderRule(ra, g.Keys, ready, needs) && ClosedUnderRule(rb, g.Keys, ready, needs);
    assert ra <= rb && rb <= ra;
  }

  /** A set that is already closed under its needs, ready and free of cycles is
      rebuilt completely: the restart of a consistent system loses nothing. */
  lemma ConsistentSetIsRebuilt(g: Graph, names: seq<Name>, ready: set<Name>, needs: Graph)
    requires Pending(g, names, needs)
    requires forall n :: n in g ==> n in ready && needs[n] <= g.Keys
    requires Acyclic(g)
    ensures Elems(Sort(g, names)) == g.Keys
    ensures Pass(Sort(g, names), ready, needs, {}) == g.Keys
  {
    SortPermutes(g, names);
    var r := Pass(Sort(g, names), ready, needs, {});
    var missing := g.Keys - r;
    if missing != {} {
      forall n | n in missing ensures g[n] * missing != {} {
        FixedPointAt(g, names, ready, needs, {}, n);
        var d :| d in needs[n] && d !in r;
        assert d in g[n] * missing;
      }
      var n :| n in missing;
      StuckLeadsToCycle(g, missing, n);
    }
  }
}
