/** Finite dependency graphs: walks, cycles and the pigeonhole argument.
    A graph maps every node to the set of nodes it depends on. */
module Graphs {

  type Name = string
  type Graph = map<Name, set<Name>>

  /** Every dependency of a node is itself a node. */
  ghost predicate Closed(g: Graph)
  {
    forall n :: n in g ==> g[n] <= g.Keys
  }

  ghost predicate IsWalk(g: Graph, w: seq<Name>)
  {
    && |w| > 0
    && (forall i :: 0 <= i < |w| ==> w[i] in g)
    && (forall i :: 0 <= i < |w| - 1 ==> w[i + 1] in g[w[i]])
  }

  ghost predicate Repeats(w: seq<Name>)
  {
    exists i, j :: 0 <= i < j < |w| && w[i] == w[j]
  }

  /** `n` is on a cycle, or some cycle is reachable from it. */
  ghost predicate LeadsToCycle(g: Graph, n: Name)
  {
    exists w :: IsWalk(g, w) && w[0] == n && Repeats(w)
  }

  ghost predicate Acyclic(g: Graph)
  {
    forall n :: n in g ==> !LeadsToCycle(g, n)
  }

  /** The elements of a list, as a set. */
  function Elems(s: seq<Name>): set<Name>
  {
    set x | x in s
  }

  lemma Associate(a: seq<Name>, b: seq<Name>, c: seq<Name>)
    ensures a + (b + c) == a + b + c
  {
  }

  lemma ElemsAppend(a: seq<Name>, b: seq<Name>)
    ensures Elems(a + b) == Elems(a) + Elems(b)
  {
    forall x ensures x in Elems(a + b) <==> x in Elems(a) + Elems(b) {
      assert x in a + b <==> x in a || x in b;
    }
  }

  ghost predicate Distinct(s: seq<Name>)
  {
    forall i, j :: 0 <= i < j < |s| ==> s[i] != s[j]
  }

  lemma {:induction false} DistinctCardinality(s: seq<Name>, nodes: set<Name>)
    requires Distinct(s) && Elems(s) <= nodes
    ensures |s| <= |nodes|
  {
    if s != [] {
      var rest := s[1..];
      assert Elems(rest) <= nodes - {s[0]};
      DistinctCardinality(rest, nodes - {s[0]});
    }
  }

  /** Pigeonhole: a list longer than the set it draws from repeats an element. */
  lemma Pigeonhole(w: seq<Name>, nodes: set<Name>)
    requires Elems(w) <= nodes && |w| > |nodes|
    ensures Repeats(w)
  {
    if !Repeats(w) {
      assert Distinct(w);
      DistinctCardinality(w, nodes);
    }
  }

  /** From any node of a set in which everybody depends on somebody of the set,
      walks of every length exist. */
  lemma {:induction false} LongWalk(g: Graph, stuck: set<Name>, n: Name, len: nat) returns (w: seq<Name>)
    requires stuck <= g.Keys && n in stuck && len > 0
    requires forall s :: s in stuck ==> g[s] * stuck != {}
    ensures IsWalk(g, w) && w[0] == n && |w| == len && Elems(w) <= stuck
    decreases len
  {
    if len == 1 {
      w := [n];
    } else {
      var next :| next in g[n] * stuck;
      var rest := LongWalk(g, stuck, next, len - 1);
      w := [n] + rest;
    }
  }

  lemma StuckLeadsToCycle(g: Graph, stuck: set<Name>, n: Name)
    requires stuck <= g.Keys && n in stuck
    requires forall s :: s in stuck ==> g[s] * stuck != {}
    ensures LeadsToCycle(g, n)
  {
    var w := LongWalk(g, stuck, n, |stuck| + 1);
    Pigeonhole(w, stuck);
  }

  /** A list in which every node comes after all of its dependencies. */
  ghost predicate Ordered(g: Graph, s: seq<Name>, before: set<Name>)
    requires Elems(s) <= g.Keys
  {
    forall i :: 0 <= i < |s| ==> g[s[i]] <= before + Elems(s[..i])
  }

  /** A walk that starts inside an ordered list stays in it and moves strictly
      towards its front, so it never repeats. */
  lemma {:induction false} OrderedWalkDescends(g: Graph, s: seq<Name>, w: seq<Name>, at: nat) returns (ps: seq<nat>)
    requires Elems(s) <= g.Keys && Ordered(g, s, {})
    requires IsWalk(g, w) && at < |s| && w[0] == s[at]
    ensures |ps| == |w| && ps[0] == at
    ensures forall i :: 0 <= i < |ps| ==> ps[i] < |s| && w[i] == s[ps[i]]
    ensures forall i, j :: 0 <= i < j < |ps| ==> ps[j] < ps[i]
    decreases |w|
  {
    if |w| == 1 {
      ps := [at];
    } else {
      assert w[1] in Elems(s[..at]);
      var k: nat :| k < at && s[k] == w[1];
      var rest := OrderedWalkDescends(g, s, w[1..], k);
      ps := [at] + rest;
      forall i, j | 0 <= i < j < |ps| ensures ps[j] < ps[i] {
        if i == 0 && j > 1 { assert rest[j - 1] < rest[0]; }
      }
    }
  }

  /** Nothing in an ordered list without repetitions leads to a cycle. */
  lemma OrderedAvoidsCycles(g: Graph, s: seq<Name>, at: nat)
    requires Elems(s) <= g.Keys && Ordered(g, s, {}) && Distinct(s) && at < |s|
    ensures !LeadsToCycle(g, s[at])
  {
    forall w | IsWalk(g, w) && w[0] == s[at] ensures !Repeats(w) {
      var ps := OrderedWalkDescends(g, s, w, at);
      forall i, j | 0 <= i < j < |w| ensures w[i] != w[j] {
        assert ps[j] < ps[i];
      }
    }
  }

  /** Cycles of a subgraph are cycles of the graph. */
  lemma SubgraphCycles(small: Graph, big: Graph, n: Name)
    requires forall x :: x in small ==> x in big && small[x] <= big[x]
    requires LeadsToCycle(small, n)
    ensures LeadsToCycle(big, n)
  {
    var w :| IsWalk(small, w) && w[0] == n && Repeats(w);
    assert IsWalk(big, w);
  }
}
