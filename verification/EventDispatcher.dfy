/** The priority event dispatcher: the listener lists it keeps and the listeners a
    dispatch calls. */
module EventDispatcher {

  type Callback = nat

  datatype Priority = Highest | High | Normal | Low | Lowest
  {
    function Value(): nat
    {
      match this
      case Highest => 1
      case High => 2
      case Normal => 3
      case Low => 4
      case Lowest => 5
    }
  }

  datatype Listener = Listener(callback: Callback, priority: Priority)

  /** The listeners of one priority value, in list order. */
  function OfValue(ls: seq<Listener>, v: nat): seq<Listener>
  {
    if ls == [] then []
    else OfValue(ls[..|ls| - 1], v) + if ls[|ls| - 1].priority.Value() == v then [ls[|ls| - 1]] else []
  }

  /** The listeners of priority values 1 to n, value by value. */
  function UpTo(ls: seq<Listener>, n: nat): seq<Listener>
  {
    if n == 0 then [] else UpTo(ls, n - 1) + OfValue(ls, n)
  }

  /** The stable sort by priority that Python's lists provide. */
  function Sorted(ls: seq<Listener>): seq<Listener>
  {
    UpTo(ls, 5)
  }

  function Without(ls: seq<Listener>, callback: Callback): seq<Listener>
  {
    if ls == [] then []
    else Without(ls[..|ls| - 1], callback) + if ls[|ls| - 1].callback != callback then [ls[|ls| - 1]] else []
  }

  // ---- The sort ------------------------------------------------------------------------

  ghost predicate InOrder(ls: seq<Listener>)
  {
    forall i, j :: 0 <= i < j < |ls| ==> ls[i].priority.Value() <= ls[j].priority.Value()
  }

  lemma OfValueSnoc(ls: seq<Listener>, x: Listener, v: nat)
    ensures OfValue(ls + [x], v) == OfValue(ls, v) + if x.priority.Value() == v then [x] else []
  {
    assert (ls + [x])[..|ls + [x]| - 1] == ls;
  }

  lemma {:induction false} OfValueAppend(a: seq<Listener>, b: seq<Listener>, v: nat)
    ensures OfValue(a + b, v) == OfValue(a, v) + OfValue(b, v)
  {
    if b == [] {
      assert a + b == a;
    } else {
      var last, front := b[|b| - 1], b[..|b| - 1];
      assert a + b == (a + front) + [last] && b == front + [last];
      OfValueAppend(a, front, v);
      OfValueSnoc(a + front, last, v);
    }
  }

  lemma {:induction false} OfValueHasValue(ls: seq<Listener>, u: nat)
    ensures forall i :: 0 <= i < |OfValue(ls, u)| ==> OfValue(ls, u)[i].priority.Value() == u
  {
    if ls != [] { OfValueHasValue(ls[..|ls| - 1], u); }
  }

  lemma {:induction false} AllOfValue(ls: seq<Listener>, v: nat)
    requires forall i :: 0 <= i < |ls| ==> ls[i].priority.Value() == v
    ensures OfValue(ls, v) == ls
  {
    if ls != [] {
      AllOfValue(ls[..|ls| - 1], v);
      assert ls == ls[..|ls| - 1] + [ls[|ls| - 1]];
    }
  }

  lemma {:induction false} NoneOfValue(ls: seq<Listener>, v: nat)
    requires forall i :: 0 <= i < |ls| ==> ls[i].priority.Value() != v
    ensures OfValue(ls, v) == []
  {
    if ls != [] { NoneOfValue(ls[..|ls| - 1], v); }
  }

  lemma OfValueTwice(ls: seq<Listener>, u: nat, v: nat)
    ensures OfValue(OfValue(ls, u), v) == if u == v then OfValue(ls, u) else []
  {
    OfValueHasValue(ls, u);
    if u == v { AllOfValue(OfValue(ls, u), v); } else { NoneOfValue(OfValue(ls, u), v); }
  }

  lemma {:induction false} UpToIsInOrder(ls: seq<Listener>, n: nat)
    ensures InOrder(UpTo(ls, n))
    ensures forall i :: 0 <= i < |UpTo(ls, n)| ==> UpTo(ls, n)[i].priority.Value() <= n
  {
    if n > 0 {
      UpToIsInOrder(ls, n - 1);
      OfValueHasValue(ls, n);
    }
  }

  lemma {:induction false} OfValueOfUpTo(ls: seq<Listener>, n: nat, v: nat)
    requires 1 <= v <= n
    ensures OfValue(UpTo(ls, n), v) == OfValue(ls, v)
  {
    OfValueAppend(UpTo(ls, n - 1), OfValue(ls, n), v);
    OfValueTwice(ls, n, v);
    if v == n {
      UpToIsInOrder(ls, n - 1);
      NoneOfValue(UpTo(ls, n - 1), v);
    } else {
      OfValueOfUpTo(ls, n - 1, v);
    }
  }

  /** Sorting moves no listener past another of the same priority. */
  lemma SortedKeepsValues(ls: seq<Listener>, v: nat)
    ensures OfValue(Sorted(ls), v) == OfValue(ls, v)
  {
    if 1 <= v <= 5 {
      OfValueOfUpTo(ls, 5, v);
    } else {
      NoneOfValue(ls, v);
      NoneOfValue(Sorted(ls), v);
    }
  }

  lemma {:induction false} UpToBelow(ls: seq<Listener>, x: Listener, n: nat)
    requires n < x.priority.Value()
    ensures UpTo(ls + [x], n) == UpTo(ls, n)
  {
    if n > 0 {
      UpToBelow(ls, x, n - 1);
      OfValueSnoc(ls, x, n);
    }
  }

  /** A listener no smaller than the others goes to the end. */
  lemma {:induction false} UpToSnoc(ls: seq<Listener>, x: Listener, n: nat)
    requires forall i :: 0 <= i < |ls| ==> ls[i].priority.Value() <= x.priority.Value()
    requires x.priority.Value() <= n
    ensures UpTo(ls + [x], n) == UpTo(ls, n) + [x]
  {
    OfValueSnoc(ls, x, n);
    if n == x.priority.Value() {
      UpToBelow(ls, x, n - 1);
      assert UpTo(ls, n - 1) + (OfValue(ls, n) + [x]) == UpTo(ls, n - 1) + OfValue(ls, n) + [x];
    } else {
      UpToSnoc(ls, x, n - 1);
      NoneOfValue(ls, n);
    }
  }

  /** A list already in order is its own sort. */
  lemma {:induction false} InOrderIsSorted(ls: seq<Listener>)
    requires InOrder(ls)
    ensures Sorted(ls) == ls
  {
    if ls == [] {
      EmptyUpTo(5);
    } else {
      var last, front := ls[|ls| - 1], ls[..|ls| - 1];
      InOrderIsSorted(front);
      assert ls == front + [last];
      UpToSnoc(front, last, 5);
    }
  }

  lemma {:induction false} EmptyUpTo(n: nat)
    ensures UpTo([], n) == []
  {
    if n > 0 { EmptyUpTo(n - 1); }
  }

  lemma {:induction false} UpToCongruent(a: seq<Listener>, b: seq<Listener>, n: nat)
    requires SameValues(a, b)
    ensures UpTo(a, n) == UpTo(b, n)
  {
    if n > 0 {
      UpToCongruent(a, b, n - 1);
      assert OfValue(a, n) == OfValue(b, n);
    }
  }

  /** The same listeners of each priority value, in the same order. */
  ghost predicate SameValues(a: seq<Listener>, b: seq<Listener>)
  {
    forall v: nat :: OfValue(a, v) == OfValue(b, v)
  }

  lemma SortedSatisfies(ls: seq<Listener>)
    ensures InOrder(Sorted(ls)) && SameValues(Sorted(ls), ls)
  {
    UpToIsInOrder(ls, 5);
    forall v: nat ensures OfValue(Sorted(ls), v) == OfValue(ls, v) { SortedKeepsValues(ls, v); }
  }

  /** The sort is the only list in priority order that keeps, for each priority
      value, the listeners of that value in their order. */
  lemma SortedIff(ls: seq<Listener>, t: seq<Listener>)
    ensures t == Sorted(ls) <==> InOrder(t) && SameValues(t, ls)
  {
    SortedSatisfies(ls);
    if InOrder(t) && SameValues(t, ls) {
      InOrderIsSorted(t);
      UpToCongruent(t, ls, 5);
    }
  }

  /** Sorting after every registration is sorting once at the end. */
  lemma SortIncremental(ls: seq<Listener>, x: Listener)
    ensures Sorted(Sorted(ls) + [x]) == Sorted(ls + [x])
  {
    forall v: nat ensures OfValue(Sorted(ls) + [x], v) == OfValue(ls + [x], v) {
      OfValueSnoc(Sorted(ls), x, v);
      OfValueSnoc(ls, x, v);
      SortedKeepsValues(ls, v);
    }
    UpToCongruent(Sorted(ls) + [x], ls + [x], 5);
  }

  lemma WithoutSnoc(ls: seq<Listener>, x: Listener, callback: Callback)
    ensures Without(ls + [x], callback) == Without(ls, callback) + if x.callback != callback then [x] else []
  {
    assert (ls + [x])[..|ls + [x]| - 1] == ls;
  }

  lemma {:induction false} WithoutOfValue(ls: seq<Listener>, callback: Callback, v: nat)
    ensures OfValue(Without(ls, callback), v) == Without(OfValue(ls, v), callback)
  {
    if ls != [] {
      var last, front := ls[|ls| - 1], ls[..|ls| - 1];
      WithoutOfValue(front, callback, v);
      if last.callback != callback {
        OfValueSnoc(Without(front, callback), last, v);
      } else {
        assert Without(ls, callback) == Without(front, callback);
      }
      if last.priority.Value() == v {
        WithoutSnoc(OfValue(front, v), last, callback);
      } else {
        assert OfValue(ls, v) == OfValue(front, v);
      }
    }
  }

  lemma {:induction false} WithoutAppend(a: seq<Listener>, b: seq<Listener>, callback: Callback)
    ensures Without(a + b, callback) == Without(a, callback) + Without(b, callback)
  {
    if b == [] {
      assert a + b == a;
    } else {
      var last, front := b[|b| - 1], b[..|b| - 1];
      assert a + b == (a + front) + [last] && b == front + [last];
      WithoutAppend(a, front, callback);
      WithoutSnoc(a + front, last, callback);
    }
  }

  /** Removing from the sorted list is sorting what remains. */
  lemma {:induction false} RemoveFromSorted(ls: seq<Listener>, callback: Callback, n: nat)
    ensures Without(UpTo(ls, n), callback) == UpTo(Without(ls, callback), n)
  {
    if n > 0 {
      RemoveFromSorted(ls, callback, n - 1);
      WithoutAppend(UpTo(ls, n - 1), OfValue(ls, n), callback);
      WithoutOfValue(ls, callback, n);
    }
  }

  // ---- Runs of registrations ---------------------------------------------------------------

  datatype Change = Add(event: string, listener: Listener) | Remove(event: string, callback: Callback)

  type Table = map<string, seq<Listener>>

  function ListFor(table: Table, event: string): seq<Listener>
  {
    if event in table then table[event] else []
  }

  function Changed(table: Table, c: Change): Table
  {
    match c
    case Add(event, listener) => table[event := Sorted(ListFor(table, event) + [listener])]
    case Remove(event, callback) => if event in table then table[event := Without(table[event], callback)] else table
  }

  function Run(changes: seq<Change>): Table
  {
    if changes == [] then map[] else Changed(Run(changes[..|changes| - 1]), changes[|changes| - 1])
  }

  /** The registrations for an event that no later removal of their callback
      undid, in registration order. */
  function Survivors(changes: seq<Change>, event: string): seq<Listener>
  {
    if changes == [] then []
    else
      var before := Survivors(changes[..|changes| - 1], event);
      match changes[|changes| - 1]
      case Add(e, listener) => if e == event then before + [listener] else before
      case Remove(e, callback) => if e == event then Without(before, callback) else before
  }

  /** After any run of registrations and removals, the list kept for an event is the
      one-shot stable sort of the surviving registrations. */
  lemma {:induction false} RunIsSortedSurvivors(changes: seq<Change>, event: string)
    ensures ListFor(Run(changes), event) == Sorted(Survivors(changes, event))
  {
    if changes == [] {
      EmptyUpTo(5);
    } else {
      var front, last := changes[..|changes| - 1], changes[|changes| - 1];
      RunIsSortedSurvivors(front, event);
      match last
      case Add(e, listener) =>
        SortIncremental(Survivors(front, event), listener);
      case Remove(e, callback) =>
        RemoveFromSorted(Survivors(front, event), callback, 5);
    }
  }

  lemma {:induction false} WithoutIff(ls: seq<Listener>, callback: Callback, x: Listener)
    ensures x in Without(ls, callback) <==> x in ls && x.callback != callback
  {
    if ls != [] {
      WithoutIff(ls[..|ls| - 1], callback, x);
      assert x in ls <==> x in ls[..|ls| - 1] || x == ls[|ls| - 1];
    }
  }

  /** A registration survives exactly when no later removal names its event and callback. */
  ghost predicate Survives(changes: seq<Change>, event: string, p: nat)
  {
    && p < |changes| && changes[p].Add? && changes[p].event == event
    && forall q :: p < q < |changes| ==> changes[q] != Remove(event, changes[p].listener.callback)
  }

  lemma {:induction false} SurvivorsIff(changes: seq<Change>, event: string, x: Listener)
    ensures x in Survivors(changes, event) <==> exists p: nat :: Survives(changes, event, p) && changes[p].listener == x
  {
    if changes != [] {
      var front, last := changes[..|changes| - 1], changes[|changes| - 1];
      SurvivorsIff(front, event, x);
      if last.Remove? && last.event == event { WithoutIff(Survivors(front, event), last.callback, x); }
      if x in Survivors(changes, event) {
        if x in Survivors(front, event) {
          var p: nat :| Survives(front, event, p) && front[p].listener == x;
          assert Survives(changes, event, p);
        } else {
          assert Survives(changes, event, |changes| - 1);
        }
      }
      if p: nat :| Survives(changes, event, p) && changes[p].listener == x {
        if p < |changes| - 1 {
          assert Survives(front, event, p) && last != Remove(event, x.callback);
        }
      }
    }
  }

  /** The order in which priorities are called. */
  predicate Earlier(a: Priority, b: Priority)
  {
    match a
    case Highest => b != Highest
    case High => b in {Normal, Low, Lowest}
    case Normal => b in {Low, Lowest}
    case Low => b == Lowest
    case Lowest => false
  }

  /** After any run, exactly the surviving registrations of an event are listed. */
  lemma ListedIffSurvives(changes: seq<Change>, event: string, x: Listener)
    ensures x in ListFor(Run(changes), event) <==> exists p: nat :: Survives(changes, event, p) && changes[p].listener == x
  {
    var ls := Survivors(changes, event);
    RunIsSortedSurvivors(changes, event);
    SortedSatisfies(ls);
    InOfValue(Sorted(ls), x);
    InOfValue(ls, x);
    assert OfValue(Sorted(ls), x.priority.Value()) == OfValue(ls, x.priority.Value());
    SurvivorsIff(changes, event, x);
  }

  /** A listener of an earlier priority is called before one of a later. */
  lemma EarlierComesFirst(changes: seq<Change>, event: string, i: nat, j: nat)
    requires i < |ListFor(Run(changes), event)| && j < |ListFor(Run(changes), event)|
    requires Earlier(ListFor(Run(changes), event)[i].priority, ListFor(Run(changes), event)[j].priority)
    ensures i < j
  {
    RunIsSortedSurvivors(changes, event);
    SortedSatisfies(Survivors(changes, event));
    EarlierByPlace(ListFor(Run(changes), event), i, j);
  }

  lemma EarlierIsLess(a: Priority, b: Priority)
    ensures Earlier(a, b) <==> a.Value() < b.Value()
  {
  }

  lemma EarlierByPlace(t: seq<Listener>, i: nat, j: nat)
    requires InOrder(t) && i < |t| && j < |t| && Earlier(t[i].priority, t[j].priority)
    ensures i < j
  {
    EarlierIsLess(t[i].priority, t[j].priority);
  }

  lemma {:induction false} InOfValue(ls: seq<Listener>, x: Listener)
    ensures x in ls <==> x in OfValue(ls, x.priority.Value())
  {
    if ls != [] {
      InOfValue(ls[..|ls| - 1], x);
      assert x in ls <==> x in ls[..|ls| - 1] || x == ls[|ls| - 1];
    }
  }

  // ---- Dispatch ---------------------------------------------------------------------------------

  datatype Event = Event(name: string, data: map<string, string>, stopped: bool)

  /** What a callback does to the event, and whether it raises. */
  datatype Reaction = Reaction(event: Event, raised: bool)

  type Behaviour = (Callback, Event) -> Reaction

  /** The event after the first `n` listeners have been called, one after the other. */
  function EventAfter(ls: seq<Listener>, react: Behaviour, e: Event, n: nat): Event
    requires n <= |ls|
  {
    if n == 0 then e else react(ls[n - 1].callback, EventAfter(ls, react, e, n - 1)).event
  }

  /** The listeners among the first `n` that raise when their turn comes. */
  function Raising(ls: seq<Listener>, react: Behaviour, e: Event, n: nat): seq<Listener>
    requires n <= |ls|
  {
    if n == 0 then []
    else
      Raising(ls, react, e, n - 1)
        + if react(ls[n - 1].callback, EventAfter(ls, react, e, n - 1)).raised then [ls[n - 1]] else []
  }

  class EventDispatcher {
    var listeners: Table

    constructor ()
      ensures listeners == map[]
    {
      listeners := map[];
    }

    method AddListener(event: string, callback: Callback, priority: Priority)
      modifies this
      ensures listeners == Changed(old(listeners), Add(event, Listener(callback, priority)))
    {
      if event !in listeners {
        listeners := listeners[event := []];
      }
      var appended := listeners[event] + [Listener(callback, priority)];
      assert appended == ListFor(old(listeners), event) + [Listener(callback, priority)];
      listeners := listeners[event := Sorted(appended)];
    }

    method RemoveListener(event: string, callback: Callback)
      modifies this
      ensures listeners == Changed(old(listeners), Remove(event, callback))
    {
      if event !in listeners {
        return;
      }
      var kept: seq<Listener> := [];
      var ls := listeners[event];
      for i := 0 to |ls|
        invariant kept == Without(ls[..i], callback)
        invariant listeners == old(listeners)
      {
        assert ls[..i + 1][..i] == ls[..i];
        if ls[i].callback != callback {
          kept := kept + [ls[i]];
        }
      }
      assert ls[..|ls|] == ls;
      listeners := listeners[event := kept];
    }

    /** The listeners called are a prefix of the list: all of them, or those up to
        and including the first that leaves the event stopped. A listener that
        raises is noted, keeps what it did to the event and does not cut the
        prefix short. */
    method Dispatch(e: Event, react: Behaviour) returns (result: Event, called: seq<Listener>, errors: seq<Listener>)
      ensures called <= ListFor(listeners, e.name)
      ensures result == EventAfter(ListFor(listeners, e.name), react, e, |called|)
      ensures errors == Raising(ListFor(listeners, e.name), react, e, |called|)
      ensures result.stopped || called == ListFor(listeners, e.name)
      ensures forall n :: 0 <= n < |called| ==> !EventAfter(ListFor(listeners, e.name), react, e, n).stopped
    {
      result, called, errors := e, [], [];
      if e.name !in listeners {
        return;
      }
      var ls := listeners[e.name];
      for i := 0 to |ls|
        invariant called == ls[..i]
        invariant result == EventAfter(ls, react, e, i)
        invariant errors == Raising(ls, react, e, i)
        invariant forall n :: 0 <= n < i ==> !EventAfter(ls, react, e, n).stopped
      {
        if result.stopped {
          return;
        }
        var reaction := react(ls[i].callback, result);
        result := reaction.event;
        if reaction.raised {
          errors := errors + [ls[i]];
        }
        called := called + [ls[i]];
      }
    }
  }
}
