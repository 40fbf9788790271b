/** The round-based topological sort behind `DependencyResolver.enable_order`:
    `Sort` specifies the algorithm, the lemmas say what it computes. */
module TopologicalOrder {
  import opened Graphs

  /** One round over the remaining names, in order: the names whose dependencies
      are resolved (resolution counts at once, within the round), and the rest. */
  function Round(g: Graph, names: seq<Name>, resolved: set<Name>): (r: (seq<Name>, seq<Name>))
    requires Elems(names) <= g.Keys
    ensures |r.0| + |r.1| == |names|
    ensures Elems(r.0) <= Elems(names) && Elems(r.1) <= Elems(names)
  {
    if names == [] then ([], [])
    else
      assert names[0] in Elems(names) && Elems(names[1..]) <= Elems(names);
      if g[names[0]] <= resolved then
        var rest := Round(g, names[1..], resolved + {names[0]});
        ([names[0]] + rest.0, rest.1)
      else
        var rest := Round(g, names[1..], resolved);
        (rest.0, [names[0]] + rest.1)
  }

  lemma RoundUnfolds(g: Graph, names: seq<Name>, resolved: set<Name>)
    requires Elems(names) <= g.Keys && names != []
    ensures names[0] in g && Elems(names[1..]) <= g.Keys
    ensures g[names[0]] <= resolved ==>
      var rest := Round(g, names[1..], resolved + {names[0]});
      Round(g, names, resolved) == ([names[0]] + rest.0, rest.1)
    ensures !(g[names[0]] <= resolved) ==>
      var rest := Round(g, names[1..], resolved);
      Round(g, names, resolved) == (rest.0, [names[0]] + rest.1)
  {
    assert names[0] in Elems(names) && Elems(names[1..]) <= Elems(names);
  }

  /** The names the rounds resolve, in the order they are resolved. */
  function Resolvable(g: Graph, names: seq<Name>, resolved: set<Name>): (r: seq<Name>)
    requires Elems(names) <= g.Keys
    ensures Elems(r) <= Elems(names)
    decreases |names|
  {
    var (done, blocked) := Round(g, names, resolved);
    if done == [] then [] else done + Resolvable(g, blocked, resolved + Elems(done))
  }

  /** The names left over when a round makes no progress. */
  function Stuck(g: Graph, names: seq<Name>, resolved: set<Name>): (r: seq<Name>)
    requires Elems(names) <= g.Keys
    ensures Elems(r) <= Elems(names)
    decreases |names|
  {
    var (done, blocked) := Round(g, names, resolved);
    if done == [] then names else Stuck(g, blocked, resolved + Elems(done))
  }

  function Sort(g: Graph, names: seq<Name>): seq<Name>
    requires Elems(names) <= g.Keys
  {
    Resolvable(g, names, {}) + Stuck(g, names, {})
  }

  // ---- Permutation -------------------------------------------------------

  lemma {:induction false} RoundPermutes(g: Graph, names: seq<Name>, resolved: set<Name>)
    requires Elems(names) <= g.Keys
    ensures multiset(Round(g, names, resolved).0) + multiset(Round(g, names, resolved).1) == multiset(names)
  {
    if names != [] {
      assert names == [names[0]] + names[1..];
      assert Elems(names[1..]) <= Elems(names);
      RoundPermutes(g, names[1..], if g[names[0]] <= resolved then resolved + {names[0]} else resolved);
    }
  }

  lemma {:induction false} RoundsPermute(g: Graph, names: seq<Name>, resolved: set<Name>)
    requires Elems(names) <= g.Keys
    ensures multiset(Resolvable(g, names, resolved)) + multiset(Stuck(g, names, resolved)) == multiset(names)
    decreases |names|
  {
    var (done, blocked) := Round(g, names, resolved);
    RoundPermutes(g, names, resolved);
    if done != [] {
      RoundsPermute(g, blocked, resolved + Elems(done));
    }
  }

  /** No name is lost, invented or repeated, cycles or not. */
  lemma SortPermutes(g: Graph, names: seq<Name>)
    requires Elems(names) <= g.Keys
    ensures multiset(Sort(g, names)) == multiset(names)
    ensures Elems(Sort(g, names)) == Elems(names)
    ensures Distinct(names) ==> Distinct(Sort(g, names))
  {
    RoundsPermute(g, names, {});
    SameElements(Sort(g, names), names);
    if Distinct(names) {
      DistinctIsSimple(names);
      SimpleIsDistinct(Sort(g, names));
    }
  }

  lemma SameElements(a: seq<Name>, b: seq<Name>)
    requires multiset(a) == multiset(b)
    ensures Elems(a) == Elems(b)
  {
    forall x ensures x in Elems(a) <==> x in Elems(b) {
      assert x in a <==> x in multiset(a);
      assert x in b <==> x in multiset(b);
    }
  }

  lemma {:induction false} DistinctIsSimple(s: seq<Name>)
    requires Distinct(s)
    ensures forall x :: multiset(s)[x] <= 1
  {
    if s != [] {
      assert s == [s[0]] + s[1..];
      DistinctIsSimple(s[1..]);
      assert s[0] !in s[1..];
      assert s[0] !in multiset(s[1..]);
    }
  }

  lemma SimpleIsDistinct(s: seq<Name>)
    requires forall x :: multiset(s)[x] <= 1
    ensures Distinct(s)
  {
    forall i, j | 0 <= i < j < |s| ensures s[i] != s[j] {
      assert s == s[..j] + s[j..];
      assert s[..j][i] == s[i] && s[j..][0] == s[j];
      assert s[i] in multiset(s[..j]) && s[j] in multiset(s[j..]);
      assert multiset(s)[s[j]] == multiset(s[..j])[s[j]] + multiset(s[j..])[s[j]];
    }
  }

  // ---- What the resolved part and the stuck part are -----------------------

  ghost predicate Blocked(g: Graph, s: seq<Name>, resolved: set<Name>)
    requires Elems(s) <= g.Keys
  {
    forall i :: 0 <= i < |s| ==> !(g[s[i]] <= resolved)
  }

  lemma OrderedAppend(g: Graph, a: seq<Name>, b: seq<Name>, before: set<Name>)
    requires Elems(a) <= g.Keys && Elems(b) <= g.Keys
    requires Ordered(g, a, before) && Ordered(g, b, before + Elems(a))
    ensures Elems(a + b) <= g.Keys && Ordered(g, a + b, before)
  {
    var t := a + b;
    ElemsAppend(a, b);
    forall i | 0 <= i < |t| ensures g[t[i]] <= before + Elems(t[..i]) {
      if i < |a| {
        assert t[..i] == a[..i] && t[i] == a[i];
      } else {
        assert t[..i] == a + b[..i - |a|] && t[i] == b[i - |a|];
        ElemsAppend(a, b[..i - |a|]);
      }
    }
  }

  lemma OrderedCons(g: Graph, x: Name, s: seq<Name>, before: set<Name>)
    requires x in g && Elems(s) <= g.Keys && g[x] <= before
    requires Ordered(g, s, before + {x})
    ensures Elems([x] + s) <= g.Keys && Ordered(g, [x] + s, before)
  {
    assert Elems([x]) == {x};
    OrderedAppend(g, [x], s, before);
  }

  /** An ordered list starts with a startable name and stays ordered after it. */
  lemma OrderedTail(g: Graph, a: seq<Name>, before: set<Name>)
    requires a != [] && Elems(a) <= g.Keys && Ordered(g, a, before)
    ensures a[0] in g && g[a[0]] <= before && Elems(a[1..]) <= g.Keys
    ensures Ordered(g, a[1..], before + {a[0]})
  {
    var x, rest := a[0], a[1..];
    assert x in Elems(a) && a[..0] == [] && g[a[0]] <= before + Elems(a[..0]);
    assert Elems(rest) <= Elems(a);
    forall i | 0 <= i < |rest| ensures g[rest[i]] <= before + {x} + Elems(rest[..i]) {
      assert a[..i + 1] == [x] + rest[..i] && a[i + 1] == rest[i];
      ElemsAppend([x], rest[..i]);
      assert Elems([x]) == {x};
      assert g[a[i + 1]] <= before + Elems(a[..i + 1]);
    }
  }

  lemma {:induction false} RoundOrders(g: Graph, names: seq<Name>, resolved: set<Name>)
    requires Elems(names) <= g.Keys
    ensures Ordered(g, Round(g, names, resolved).0, resolved)
    ensures Round(g, names, resolved).0 == [] ==> Blocked(g, names, resolved)
  {
    if names != [] {
      assert Elems(names[1..]) <= Elems(names);
      assert names[0] in Elems(names);
      if g[names[0]] <= resolved {
        RoundOrders(g, names[1..], resolved + {names[0]});
        OrderedCons(g, names[0], Round(g, names[1..], resolved + {names[0]}).0, resolved);
      } else {
        RoundOrders(g, names[1..], resolved);
      }
    }
  }

  lemma {:induction false} RoundsOrder(g: Graph, names: seq<Name>, resolved: set<Name>)
    requires Elems(names) <= g.Keys
    ensures Ordered(g, Resolvable(g, names, resolved), resolved)
    ensures Blocked(g, Stuck(g, names, resolved), resolved + Elems(Resolvable(g, names, resolved)))
    decreases |names|
  {
    var (done, blocked) := Round(g, names, resolved);
    RoundOrders(g, names, resolved);
    if done == [] {
      assert resolved + Elems(Resolvable(g, names, resolved)) == resolved;
    } else {
      RoundsOrder(g, blocked, resolved + Elems(done));
      OrderedAppend(g, done, Resolvable(g, blocked, resolved + Elems(done)), resolved);
      assert resolved + Elems(Resolvable(g, names, resolved))
          == resolved + Elems(done) + Elems(Resolvable(g, blocked, resolved + Elems(done)));
    }
  }

  /** The names of `names` that lie on a cycle or lead to one, in input order. */
  ghost function CyclicPart(g: Graph, names: seq<Name>): seq<Name>
  {
    if names == [] then []
    else (if LeadsToCycle(g, names[0]) then [names[0]] else []) + CyclicPart(g, names[1..])
  }

  ghost function Among(names: seq<Name>, keep: set<Name>): seq<Name>
  {
    if names == [] then []
    else (if names[0] in keep then [names[0]] else []) + Among(names[1..], keep)
  }

  lemma {:induction false} AmongTwice(names: seq<Name>, outer: set<Name>, inner: set<Name>)
    requires inner <= outer
    ensures Among(Among(names, outer), inner) == Among(names, inner)
  {
    if names != [] {
      AmongTwice(names[1..], outer, inner);
      var rest := Among(names[1..], outer);
      if names[0] in outer {
        assert ([names[0]] + rest)[1..] == rest;
      } else {
        assert [] + rest == rest;
      }
    }
  }

  lemma {:induction false} AmongAll(names: seq<Name>, keep: set<Name>)
    requires Elems(names) <= keep
    ensures Among(names, keep) == names
  {
    if names != [] {
      assert names[0] in Elems(names);
      assert Elems(names[1..]) <= Elems(names);
      AmongAll(names[1..], keep);
    }
  }

  lemma {:induction false} AmongDrops(names: seq<Name>, x: Name, keep: set<Name>)
    requires x !in names
    ensures Among(names, keep + {x}) == Among(names, keep)
  {
    if names != [] {
      AmongDrops(names[1..], x, keep);
    }
  }

  /** A round leaves the blocked names in the order they came in. */
  lemma {:induction false} RoundKeepsInputOrder(g: Graph, names: seq<Name>, resolved: set<Name>)
    requires Elems(names) <= g.Keys && Distinct(names)
    ensures Round(g, names, resolved).1 == Among(names, Elems(Round(g, names, resolved).1))
    ensures Distinct(Round(g, names, resolved).1)
  {
    if names != [] {
      var x, rest := names[0], names[1..];
      assert Elems(rest) <= Elems(names) && x in Elems(names) && x !in rest;
      assert Distinct(rest);
      if g[x] <= resolved {
        RoundKeepsInputOrder(g, rest, resolved + {x});
        assert Elems(Round(g, rest, resolved + {x}).1) <= Elems(rest);
      } else {
        RoundKeepsInputOrder(g, rest, resolved);
        var b := Round(g, rest, resolved).1;
        assert Elems([x] + b) == Elems(b) + {x};
        assert Elems(b) <= Elems(rest);
        AmongDrops(rest, x, Elems(b));
      }
    }
  }

  lemma {:induction false} StuckKeepsInputOrder(g: Graph, names: seq<Name>, resolved: set<Name>)
    requires Elems(names) <= g.Keys && Distinct(names)
    ensures Stuck(g, names, resolved) == Among(names, Elems(Stuck(g, names, resolved)))
    decreases |names|
  {
    var (done, blocked) := Round(g, names, resolved);
    if done == [] {
      AmongAll(names, Elems(names));
    } else {
      RoundKeepsInputOrder(g, names, resolved);
      StuckKeepsInputOrder(g, blocked, resolved + Elems(done));
      var stuck := Stuck(g, blocked, resolved + Elems(done));
      AmongTwice(names, Elems(blocked), Elems(stuck));
    }
  }

  lemma {:induction false} AmongIsCyclicPart(g: Graph, names: seq<Name>, keep: set<Name>)
    requires forall n :: n in names ==> (n in keep <==> LeadsToCycle(g, n))
    ensures Among(names, keep) == CyclicPart(g, names)
  {
    if names != [] {
      AmongIsCyclicPart(g, names[1..], keep);
    }
  }

  /** The two parts share no name. */
  lemma PartsDisjoint(g: Graph, names: seq<Name>, i: nat, j: nat)
    requires Elems(names) <= g.Keys && Distinct(names)
    requires i < |Resolvable(g, names, {})| && j < |Stuck(g, names, {})|
    ensures Resolvable(g, names, {})[i] != Stuck(g, names, {})[j]
  {
    var good, bad := Resolvable(g, names, {}), Stuck(g, names, {});
    SortPermutes(g, names);
    assert (good + bad)[i] != (good + bad)[|good| + j];
  }

  lemma StuckIsCyclic(g: Graph, names: seq<Name>, n: Name)
    requires Closed(g) && Elems(names) == g.Keys
    requires n in Stuck(g, names, {})
    ensures LeadsToCycle(g, n)
  {
    var good, bad := Resolvable(g, names, {}), Stuck(g, names, {});
    RoundsOrder(g, names, {});
    SortPermutes(g, names);
    forall s | s in Elems(bad) ensures g[s] * Elems(bad) != {} {
      var i :| 0 <= i < |bad| && bad[i] == s;
      assert !(g[bad[i]] <= {} + Elems(good));
      var d :| d in g[s] && d !in Elems(good);
      assert d in Elems(good + bad);
      assert d in g[s] * Elems(bad);
    }
    StuckLeadsToCycle(g, Elems(bad), n);
  }

  lemma ResolvableIsAcyclic(g: Graph, names: seq<Name>, n: Name)
    requires Elems(names) <= g.Keys && Distinct(names)
    requires n in Resolvable(g, names, {})
    ensures !LeadsToCycle(g, n)
  {
    var good, bad := Resolvable(g, names, {}), Stuck(g, names, {});
    RoundsOrder(g, names, {});
    SortPermutes(g, names);
    forall i, j | 0 <= i < j < |good| ensures good[i] != good[j] {
      assert (good + bad)[i] != (good + bad)[j];
    }
    var at: nat :| at < |good| && good[at] == n;
    OrderedAvoidsCycles(g, good, at);
  }

  /** A name is stuck exactly when it leads to a dependency cycle. */
  lemma StuckIffLeadsToCycle(g: Graph, names: seq<Name>, n: Name)
    requires Closed(g) && Elems(names) == g.Keys && Distinct(names) && n in g
    ensures n in Stuck(g, names, {}) <==> LeadsToCycle(g, n)
    ensures n in Resolvable(g, names, {}) <==> !LeadsToCycle(g, n)
  {
    SortPermutes(g, names);
    assert n in Elems(Sort(g, names));
    if n in Stuck(g, names, {}) {
      StuckIsCyclic(g, names, n);
    }
    if n in Resolvable(g, names, {}) {
      ResolvableIsAcyclic(g, names, n);
    }
  }

  /** The shape of the result for distinct names: first, with every dependency
      before its dependents, the names that lead to no cycle; then, in input
      order, exactly the names that do. */
  lemma SortShape(g: Graph, names: seq<Name>)
    requires Closed(g) && Elems(names) == g.Keys && Distinct(names)
    ensures Sort(g, names) == Resolvable(g, names, {}) + CyclicPart(g, names)
    ensures Ordered(g, Resolvable(g, names, {}), {})
    ensures forall n :: n in g ==> (n in Resolvable(g, names, {}) <==> !LeadsToCycle(g, n))
  {
    RoundsOrder(g, names, {});
    StuckKeepsInputOrder(g, names, {});
    forall n | n in g
      ensures n in Stuck(g, names, {}) <==> LeadsToCycle(g, n)
      ensures n in Resolvable(g, names, {}) <==> !LeadsToCycle(g, n)
    {
      StuckIffLeadsToCycle(g, names, n);
    }
    forall n | n in names ensures n in g { assert n in Elems(names); }
    AmongIsCyclicPart(g, names, Elems(Stuck(g, names, {})));
  }

  // ---- Fixed points and idempotence ------------------------------------------

  /** An ordered run followed by names blocked on it. */
  ghost predicate Settled(g: Graph, names: seq<Name>, k: nat)
    requires Elems(names) <= g.Keys && k <= |names|
  {
    && Elems(names[..k]) <= g.Keys && Elems(names[k..]) <= g.Keys
    && Ordered(g, names[..k], {})
    && Blocked(g, names[k..], Elems(names[..k]))
  }

  lemma {:induction false} RoundOnBlocked(g: Graph, b: seq<Name>, resolved: set<Name>)
    requires Elems(b) <= g.Keys && Blocked(g, b, resolved)
    ensures Round(g, b, resolved) == ([], b)
  {
    if b != [] {
      var rest := b[1..];
      assert b == [b[0]] + rest;
      assert b[0] in Elems(b) && Elems(rest) <= Elems(b);
      forall i | 0 <= i < |rest| ensures !(g[rest[i]] <= resolved) { assert rest[i] == b[i + 1]; }
      RoundOnBlocked(g, rest, resolved);
    }
  }

  lemma {:induction false} RoundOnSettled(g: Graph, a: seq<Name>, b: seq<Name>, resolved: set<Name>)
    requires Elems(a) <= g.Keys && Elems(b) <= g.Keys && Elems(a + b) <= g.Keys
    requires Ordered(g, a, resolved) && Blocked(g, b, resolved + Elems(a))
    ensures Round(g, a + b, resolved) == (a, b)
  {
    if a == [] {
      assert a + b == b;
      assert resolved + Elems(a) == resolved;
      RoundOnBlocked(g, b, resolved);
    } else {
      var x, rest := a[0], a[1..];
      OrderedTail(g, a, resolved);
      assert a == [x] + rest && (a + b)[0] == x && (a + b)[1..] == rest + b;
      ElemsAppend([x], rest);
      ElemsAppend(rest, b);
      assert Elems([x]) == {x};
      assert resolved + {x} + Elems(rest) == resolved + Elems(a);
      RoundOnSettled(g, rest, b, resolved + {x});
    }
  }

  lemma SettledIsKept(g: Graph, names: seq<Name>, k: nat)
    requires Elems(names) <= g.Keys && k <= |names| && Settled(g, names, k)
    ensures Resolvable(g, names, {}) == names[..k] && Stuck(g, names, {}) == names[k..]
  {
    var a, b := names[..k], names[k..];
    assert names == a + b;
    assert {} + Elems(a) == Elems(a);
    RoundOnSettled(g, a, b, {});
    if a != [] {
      RoundOnBlocked(g, b, Elems(a));
      assert {} + Elems(a) == Elems(a);
      assert Resolvable(g, b, Elems(a)) == [] && Stuck(g, b, Elems(a)) == b;
      assert a + [] == a;
    }
  }

  lemma KeptIsSettled(g: Graph, names: seq<Name>)
    requires Elems(names) <= g.Keys
    ensures var s := Sort(g, names); var k := |Resolvable(g, names, {})|;
      Elems(s) <= g.Keys && k <= |s| && Settled(g, s, k)
  {
    var good, bad := Resolvable(g, names, {}), Stuck(g, names, {});
    RoundsOrder(g, names, {});
    SortPermutes(g, names);
    var s := Sort(g, names);
    assert s[..|good|] == good && s[|good|..] == bad;
    assert {} + Elems(good) == Elems(good);
  }

  /** The result equals the input exactly for settled inputs: an input in
      dependency order, or one followed only by names that can never start,
      comes back unchanged, and nothing else does. */
  lemma SortFixedPoints(g: Graph, names: seq<Name>)
    requires Elems(names) <= g.Keys
    ensures Sort(g, names) == names <==> exists k: nat :: k <= |names| && Settled(g, names, k)
  {
    if k: nat :| k <= |names| && Settled(g, names, k) {
      SettledIsKept(g, names, k);
    }
    KeptIsSettled(g, names);
  }

  /** Sorting twice is sorting once, on every input: cyclic ones and ones with
      repeated names included. */
  lemma SortIdempotent(g: Graph, names: seq<Name>)
    requires Elems(names) <= g.Keys
    ensures Elems(Sort(g, names)) <= g.Keys
    ensures Sort(g, Sort(g, names)) == Sort(g, names)
  {
    KeptIsSettled(g, names);
    SettledIsKept(g, Sort(g, names), |Resolvable(g, names, {})|);
  }

  /** An input that already lists every dependency first is returned unchanged. */
  lemma SortKeepsOrderedInput(g: Graph, names: seq<Name>)
    requires Elems(names) <= g.Keys && Ordered(g, names, {})
    ensures Sort(g, names) == names
  {
    assert names[..|names|] == names && names[|names|..] == [];
    assert Settled(g, names, |names|);
    SortFixedPoints(g, names);
  }
}
