/** Captures, refunds and restorations of whole invoices: exact effect, replay, and
    what undoes what. */
module InvoiceFlow {
  import opened Versioning
  import opened Tokens
  import opened PurchaseRuns

  /** The core handler is the one asked for this line item. */
  predicate CoreOwned(handlers: seq<Handler>, item: LineItem)
  {
    Owner(handlers, item) == Some(CoreHandler)
  }

  predicate OnlyCore(handlers: seq<Handler>)
  {
    forall i :: 0 <= i < |handlers| ==> handlers[i] == CoreHandler
  }

  /** The purchases an operation on these lines acts on: each purchase a core-owned
      line refers to and whose status fits, once, at its first mention. */
  function Targets(purchases: map<Id, Purchase>, handlers: seq<Handler>, op: Operation, items: seq<LineItem>, done: set<Id>): (ids: seq<Id>)
  {
    if items == [] then []
    else
      var id := items[0].itemId;
      if CoreOwned(handlers, items[0]) && id !in done && id in purchases && purchases[id].status == ActsOn(op)
      then [id] + Targets(purchases, handlers, op, items[1..], done + {id})
      else Targets(purchases, handlers, op, items[1..], done)
  }

  function AmountOf(purchases: map<Id, Purchase>, id: Id): int
  {
    if id in purchases then purchases[id].amount else 0
  }

  function Total(purchases: map<Id, Purchase>, ids: seq<Id>): int
  {
    if ids == [] then 0 else AmountOf(purchases, ids[0]) + Total(purchases, ids[1..])
  }

  /** A core-owned line refers to the purchase. */
  predicate Mentions(handlers: seq<Handler>, items: seq<LineItem>, id: Id)
  {
    exists k :: 0 <= k < |items| && items[k].itemId == id && CoreOwned(handlers, items[k])
  }

  lemma MentionsCons(handlers: seq<Handler>, items: seq<LineItem>, id: Id)
    requires items != []
    ensures Mentions(handlers, items, id)
       <==> (items[0].itemId == id && CoreOwned(handlers, items[0])) || Mentions(handlers, items[1..], id)
  {
    var rest := items[1..];
    if Mentions(handlers, rest, id) {
      var k :| 0 <= k < |rest| && rest[k].itemId == id && CoreOwned(handlers, rest[k]);
      assert items[k + 1] == rest[k];
    }
    if k :| 0 < k < |items| && items[k].itemId == id && CoreOwned(handlers, items[k]) {
      assert rest[k - 1] == items[k];
    }
  }

  /** The targets are exactly the distinct purchases of fitting status that the
      core-owned lines mention. */
  lemma {:induction false} TargetsMeaning(purchases: map<Id, Purchase>, handlers: seq<Handler>, op: Operation, items: seq<LineItem>, done: set<Id>)
    ensures var ids := Targets(purchases, handlers, op, items, done);
      && (forall i, j :: 0 <= i < j < |ids| ==> ids[i] != ids[j])
      && (forall id :: id in ids <==>
            && id !in done && id in purchases && purchases[id].status == ActsOn(op)
            && Mentions(handlers, items, id))
  {
    if items != [] {
      var id, rest := items[0].itemId, items[1..];
      var taken := CoreOwned(handlers, items[0]) && id !in done && id in purchases && purchases[id].status == ActsOn(op);
      var done' := if taken then done + {id} else done;
      TargetsMeaning(purchases, handlers, op, rest, done');
      var ids, tail := Targets(purchases, handlers, op, items, done), Targets(purchases, handlers, op, rest, done');
      forall x ensures x in ids <==> x !in done && x in purchases && purchases[x].status == ActsOn(op) && Mentions(handlers, items, x) {
        MentionsCons(handlers, items, x);
      }
    }
  }

  // ---- The effect of processing an invoice --------------------------------------------

  /** The book while the lines are processed: the purchases already dealt with no
      longer fit the operation, the others are as at the start. */
  ghost predicate Midway(start: map<Id, Purchase>, b: Book, op: Operation, done: set<Id>)
  {
    && b.purchases.Keys == start.Keys
    && (forall id :: id in done ==> !Acts(b, op, id))
    && (forall id :: id in start && id !in done ==> b.purchases[id] == start[id])
  }

  /** The change of balance that moving so many tokens means. */
  function Signed(op: Operation, tokens: int): int
  {
    if op == Reverse then -tokens else tokens
  }

  function KindOf(op: Operation): Kind
  {
    if op == Reverse then RefundRow else PurchaseRow
  }

  /** The movement of a full amount from a given balance. */
  function Full(op: Operation, user: User, balance: int, id: Id, amount: int): Movement
  {
    Movement(user, Signed(op, amount), balance + Signed(op, amount), KindOf(op), id)
  }

  /** The tokens one acting operation moves, given the balance it meets: a credit is
      all or nothing, a debit is clamped. None if the amount is refused or a hook
      objects. */
  function Moves(hooks: Hooks, op: Operation, user: User, balance: int, id: Id, amount: int): Option<int>
  {
    if op == Reverse then
      if balance <= 0 then Some(0)
      else
        var debit := if amount <= balance then amount else balance;
        if hooks(Full(op, user, balance, id, debit)) then Some(debit) else None
    else if amount > 0 && hooks(Full(op, user, balance, id, amount)) then Some(amount) else None
  }

  function OrZero(m: Option<int>): int
  {
    if m.Some? then m.value else 0
  }

  /** One purchase that the operation acts on. */
  lemma PerformedMoves(b: Book, hooks: Hooks, op: Operation, id: Id, user: User, now: int)
    requires Acts(b, op, id)
    ensures var (c, r) := Performed(b, hooks, op, id, user, now);
      var m := Moves(hooks, op, user, BalanceOf(b.ledger, user), id, b.purchases[id].amount);
      && c.purchases == b.purchases[id := Stamped(b.purchases[id], op, now)]
      && BalanceOf(c.ledger, user) == BalanceOf(b.ledger, user) + Signed(op, OrZero(m))
      && (forall u :: u != user ==> BalanceOf(c.ledger, u) == BalanceOf(b.ledger, u))
      && r == (if m == None then ItemResult(false, false, NO_DATA)
               else ItemResult(true, false, ItemData(None, Some(id), None, if op == Reverse then 0 else m.value,
                                                     if op == Reverse then m.value else 0)))
  {
  }

  lemma DispatchedIdle(b: Book, hooks: Hooks, handlers: seq<Handler>, op: Operation, item: LineItem, user: User, now: int)
    requires CoreOwned(handlers, item) ==> !Acts(b, op, item.itemId)
    ensures Dispatched(b, hooks, handlers, op, item, user, now).0 == b
    ensures CoreOwned(handlers, item) ==> Dispatched(b, hooks, handlers, op, item, user, now).1 == ItemResult(true, false, NO_DATA)
  {
  }

  /** The targets in turn, each meeting the balance the one before it left: the
      purchases whose movement goes through, and the tokens moved in all. */
  function Settled(purchases: map<Id, Purchase>, hooks: Hooks, op: Operation, user: User, balance: int, ids: seq<Id>): (seq<Id>, int)
    decreases |ids|
  {
    if ids == [] then ([], 0)
    else
      var m := Moves(hooks, op, user, balance, ids[0], AmountOf(purchases, ids[0]));
      var rest := Settled(purchases, hooks, op, user, balance + Signed(op, OrZero(m)), ids[1..]);
      (if m.Some? then [ids[0]] + rest.0 else rest.0, OrZero(m) + rest.1)
  }

  /** One line's turn keeps the book midway, whether or not it is acted on. */
  lemma TurnMoves(start: map<Id, Purchase>, b: Book, hooks: Hooks, handlers: seq<Handler>, op: Operation,
                  item: LineItem, user: User, now: int, done: set<Id>)
    requires Midway(start, b, op, done)
    ensures var c := Dispatched(b, hooks, handlers, op, item, user, now).0;
      if CoreOwned(handlers, item) && Acts(b, op, item.itemId) then
        && item.itemId !in done && start[item.itemId] == b.purchases[item.itemId]
        && Midway(start, c, op, done + {item.itemId})
        && c.purchases == b.purchases[item.itemId := Stamped(b.purchases[item.itemId], op, now)]
        && BalanceOf(c.ledger, user) == BalanceOf(b.ledger, user)
             + Signed(op, OrZero(Moves(hooks, op, user, BalanceOf(b.ledger, user), item.itemId, b.purchases[item.itemId].amount)))
        && (forall u :: u != user ==> BalanceOf(c.ledger, u) == BalanceOf(b.ledger, u))
      else c == b
  {
    if CoreOwned(handlers, item) && Acts(b, op, item.itemId) {
      PerformedMoves(b, hooks, op, item.itemId, user, now);
    } else {
      DispatchedIdle(b, hooks, handlers, op, item, user, now);
    }
  }

  /** Whether the line's purchase is a target. */
  predicate Taken(start: map<Id, Purchase>, handlers: seq<Handler>, op: Operation, item: LineItem, done: set<Id>)
  {
    CoreOwned(handlers, item) && item.itemId !in done && item.itemId in start && start[item.itemId].status == ActsOn(op)
  }

  lemma TargetsUnfold(start: map<Id, Purchase>, handlers: seq<Handler>, op: Operation, items: seq<LineItem>, done: set<Id>)
    returns (tail: seq<Id>)
    requires items != []
    ensures Taken(start, handlers, op, items[0], done) ==>
      && tail == Targets(start, handlers, op, items[1..], done + {items[0].itemId})
      && Targets(start, handlers, op, items, done) == [items[0].itemId] + tail
    ensures !Taken(start, handlers, op, items[0], done) ==>
      tail == Targets(start, handlers, op, items[1..], done) == Targets(start, handlers, op, items, done)
  {
    tail := Targets(start, handlers, op, items[1..],
                    if Taken(start, handlers, op, items[0], done) then done + {items[0].itemId} else done);
  }

  lemma SettledCons(purchases: map<Id, Purchase>, hooks: Hooks, op: Operation, user: User, balance: int, id: Id, tail: seq<Id>)
    ensures var m := Moves(hooks, op, user, balance, id, AmountOf(purchases, id));
      var rest := Settled(purchases, hooks, op, user, balance + Signed(op, OrZero(m)), tail);
      Settled(purchases, hooks, op, user, balance, [id] + tail)
        == (if m.Some? then [id] + rest.0 else rest.0, OrZero(m) + rest.1)
  {
    assert ([id] + tail)[1..] == tail;
  }

  /** Processing the lines stamps exactly the targets, whatever hooks and amounts. */
  lemma {:induction false} ProcessedStamps(start: map<Id, Purchase>, b: Book, hooks: Hooks, handlers: seq<Handler>, op: Operation,
                                           items: seq<LineItem>, user: User, now: int, sum: Summary, done: set<Id>)
    requires Midway(start, b, op, done)
    ensures var c := Processed(b, hooks, handlers, op, items, user, now, sum).0;
      && c.purchases.Keys == b.purchases.Keys
      && (forall id :: id in b.purchases ==>
            c.purchases[id] == if id in Targets(start, handlers, op, items, done) then Stamped(b.purchases[id], op, now) else b.purchases[id])
    decreases |items|
  {
    if items != [] {
      var item, rest := items[0], items[1..];
      var (b', r) := Dispatched(b, hooks, handlers, op, item, user, now);
      var tail := TargetsUnfold(start, handlers, op, items, done);
      TurnMoves(start, b, hooks, handlers, op, item, user, now, done);
      assert Taken(start, handlers, op, item, done) <==> CoreOwned(handlers, item) && Acts(b, op, item.itemId);
      var done' := if Taken(start, handlers, op, item, done) then done + {item.itemId} else done;
      ProcessedStamps(start, b', hooks, handlers, op, rest, user, now, Collected(sum, op, r), done');
      TargetsMeaning(start, handlers, op, rest, done');
    }
  }

  /** What the targets among these lines settle for. */
  function Moved(start: map<Id, Purchase>, b: Book, hooks: Hooks, handlers: seq<Handler>, op: Operation,
                 items: seq<LineItem>, user: User, done: set<Id>): int
  {
    Settled(start, hooks, op, user, BalanceOf(b.ledger, user), Targets(start, handlers, op, items, done)).1
  }

  lemma TurnMoved(start: map<Id, Purchase>, b: Book, hooks: Hooks, handlers: seq<Handler>, op: Operation,
                  items: seq<LineItem>, user: User, now: int, done: set<Id>) returns (done': set<Id>)
    requires items != [] && Midway(start, b, op, done)
    ensures var c := Dispatched(b, hooks, handlers, op, items[0], user, now).0;
      && Midway(start, c, op, done')
      && BalanceOf(c.ledger, user) + Signed(op, Moved(start, c, hooks, handlers, op, items[1..], user, done'))
           == BalanceOf(b.ledger, user) + Signed(op, Moved(start, b, hooks, handlers, op, items, user, done))
      && (forall u :: u != user ==> BalanceOf(c.ledger, u) == BalanceOf(b.ledger, u))
  {
    var id := items[0].itemId;
    var tail := TargetsUnfold(start, handlers, op, items, done);
    TurnMoves(start, b, hooks, handlers, op, items[0], user, now, done);
    var taken := Taken(start, handlers, op, items[0], done);
    assert taken <==> CoreOwned(handlers, items[0]) && Acts(b, op, id);
    done' := if taken then done + {id} else done;
    if taken {
      SettledCons(start, hooks, op, user, BalanceOf(b.ledger, user), id, tail);
    }
  }

  /** It moves what the targets settle for, for this user alone: duplicated lines,
      lines of finished purchases and lines of other handlers move nothing. */
  lemma {:induction false} ProcessedMoves(start: map<Id, Purchase>, b: Book, hooks: Hooks, handlers: seq<Handler>, op: Operation,
                                          items: seq<LineItem>, user: User, now: int, sum: Summary, done: set<Id>)
    requires Midway(start, b, op, done)
    ensures var c := Processed(b, hooks, handlers, op, items, user, now, sum).0;
      && BalanceOf(c.ledger, user)
           == BalanceOf(b.ledger, user) + Signed(op, Moved(start, b, hooks, handlers, op, items, user, done))
      && (forall u :: u != user ==> BalanceOf(c.ledger, u) == BalanceOf(b.ledger, u))
    decreases |items|
  {
    if items != [] {
      var (b', r) := Dispatched(b, hooks, handlers, op, items[0], user, now);
      var done' := TurnMoved(start, b, hooks, handlers, op, items, user, now, done);
      ProcessedMoves(start, b', hooks, handlers, op, items[1..], user, now, Collected(sum, op, r), done');
    }
  }

  /** The summary with some more purchases and tokens. */
  function Plus(sum: Summary, settled: (seq<Id>, int)): Summary
  {
    sum.(bundles := sum.bundles + settled.0, tokens := sum.tokens + settled.1)
  }

  /** What one target settles for. */
  function Share(id: Id, m: Option<int>): (seq<Id>, int)
  {
    (if m.Some? then [id] else [], OrZero(m))
  }

  lemma PlusCons(sum: Summary, id: Id, m: Option<int>, rest: (seq<Id>, int))
    ensures Plus(Plus(sum, Share(id, m)), rest) == Plus(sum, (if m.Some? then [id] + rest.0 else rest.0, OrZero(m) + rest.1))
  {
    assert sum.bundles + [id] + rest.0 == sum.bundles + ([id] + rest.0);
    assert sum.bundles + [] + rest.0 == sum.bundles + rest.0;
  }

  /** What the core handler reports for one line. */
  lemma TurnReport(b: Book, hooks: Hooks, handlers: seq<Handler>, op: Operation, item: LineItem, user: User, now: int, sum: Summary)
    requires OnlyCore(handlers)
    ensures var sum' := Collected(sum, op, Dispatched(b, hooks, handlers, op, item, user, now).1);
      if CoreOwned(handlers, item) && Acts(b, op, item.itemId) then
        var m := Moves(hooks, op, user, BalanceOf(b.ledger, user), item.itemId, b.purchases[item.itemId].amount);
        sum' == Plus(sum, Share(item.itemId, m))
      else sum' == sum
  {
    OwnerIsCore(handlers, item);
    if CoreOwned(handlers, item) && Acts(b, op, item.itemId) {
      PerformedMoves(b, hooks, op, item.itemId, user, now);
    } else {
      DispatchedIdle(b, hooks, handlers, op, item, user, now);
    }
  }

  /** The summary with everything the lines' targets settle for added. */
  function Reported(start: map<Id, Purchase>, b: Book, hooks: Hooks, handlers: seq<Handler>, op: Operation,
                    items: seq<LineItem>, user: User, done: set<Id>, sum: Summary): Summary
  {
    Plus(sum, Settled(start, hooks, op, user, BalanceOf(b.ledger, user), Targets(start, handlers, op, items, done)))
  }

  lemma TakenTurn(start: map<Id, Purchase>, b: Book, hooks: Hooks, handlers: seq<Handler>, op: Operation,
                  item: LineItem, user: User, now: int, done: set<Id>, sum: Summary) returns (m: Option<int>)
    requires Midway(start, b, op, done) && OnlyCore(handlers) && Taken(start, handlers, op, item, done)
    ensures var (c, r) := Dispatched(b, hooks, handlers, op, item, user, now);
      && m == Moves(hooks, op, user, BalanceOf(b.ledger, user), item.itemId, AmountOf(start, item.itemId))
      && BalanceOf(c.ledger, user) == BalanceOf(b.ledger, user) + Signed(op, OrZero(m))
      && Collected(sum, op, r) == Plus(sum, Share(item.itemId, m))
  {
    TurnMoves(start, b, hooks, handlers, op, item, user, now, done);
    TurnReport(b, hooks, handlers, op, item, user, now, sum);
    assert Acts(b, op, item.itemId) && AmountOf(start, item.itemId) == b.purchases[item.itemId].amount;
    m := Moves(hooks, op, user, BalanceOf(b.ledger, user), item.itemId, AmountOf(start, item.itemId));
  }

  lemma TakenReported(start: map<Id, Purchase>, b: Book, hooks: Hooks, handlers: seq<Handler>, op: Operation,
                      items: seq<LineItem>, user: User, now: int, done: set<Id>, sum: Summary)
    requires items != [] && Midway(start, b, op, done) && OnlyCore(handlers) && Taken(start, handlers, op, items[0], done)
    ensures var (c, r) := Dispatched(b, hooks, handlers, op, items[0], user, now);
      Reported(start, c, hooks, handlers, op, items[1..], user, done + {items[0].itemId}, Collected(sum, op, r))
        == Reported(start, b, hooks, handlers, op, items, user, done, sum)
  {
    var balance := BalanceOf(b.ledger, user);
    var m := TakenTurn(start, b, hooks, handlers, op, items[0], user, now, done, sum);
    var tail := TargetsUnfold(start, handlers, op, items, done);
    SettledCons(start, hooks, op, user, balance, items[0].itemId, tail);
    PlusCons(sum, items[0].itemId, m, Settled(start, hooks, op, user, balance + Signed(op, OrZero(m)), tail));
  }

  lemma TurnReported(start: map<Id, Purchase>, b: Book, hooks: Hooks, handlers: seq<Handler>, op: Operation,
                     items: seq<LineItem>, user: User, now: int, done: set<Id>, sum: Summary) returns (done': set<Id>)
    requires items != [] && Midway(start, b, op, done) && OnlyCore(handlers)
    ensures var (c, r) := Dispatched(b, hooks, handlers, op, items[0], user, now);
      && Midway(start, c, op, done')
      && Reported(start, c, hooks, handlers, op, items[1..], user, done', Collected(sum, op, r))
           == Reported(start, b, hooks, handlers, op, items, user, done, sum)
  {
    TurnMoves(start, b, hooks, handlers, op, items[0], user, now, done);
    if Taken(start, handlers, op, items[0], done) {
      TakenReported(start, b, hooks, handlers, op, items, user, now, done, sum);
      done' := done + {items[0].itemId};
    } else {
      var tail := TargetsUnfold(start, handlers, op, items, done);
      TurnReport(b, hooks, handlers, op, items[0], user, now, sum);
      done' := done;
    }
  }

  /** With the core handler alone, the purchases reported are the targets whose
      movement went through, each once, in line order, and the tokens reported are
      the tokens moved. */
  lemma {:induction false} ProcessedReport(start: map<Id, Purchase>, b: Book, hooks: Hooks, handlers: seq<Handler>, op: Operation,
                                           items: seq<LineItem>, user: User, now: int, sum: Summary, done: set<Id>)
    requires Midway(start, b, op, done) && OnlyCore(handlers)
    ensures Processed(b, hooks, handlers, op, items, user, now, sum).1
         == Reported(start, b, hooks, handlers, op, items, user, done, sum)
    decreases |items|
  {
    if items == [] {
      assert sum.bundles + [] == sum.bundles;
    } else {
      var (b', r) := Dispatched(b, hooks, handlers, op, items[0], user, now);
      var done' := TurnReported(start, b, hooks, handlers, op, items, user, now, done, sum);
      ProcessedReport(start, b', hooks, handlers, op, items[1..], user, now, Collected(sum, op, r), done');
    }
  }

  lemma {:induction false} OwnerIsCore(handlers: seq<Handler>, item: LineItem)
    requires OnlyCore(handlers)
    ensures Owner(handlers, item) in {None, Some(CoreHandler)}
  {
    if handlers != [] {
      assert handlers[0] == CoreHandler;
      OwnerIsCore(handlers[1..], item);
    }
  }

  /** The exact effect of an operation on the lines of an invoice: the targets are
      stamped, the user's balance moves by what they settle for and nothing else
      changes; with the core handler alone, the report says so. */
  ghost predicate Effect(b: Book, c: Book, sum: Summary, hooks: Hooks, handlers: seq<Handler>, op: Operation,
                         items: seq<LineItem>, user: User, now: int)
  {
    var ids := Targets(b.purchases, handlers, op, items, {});
    var settled := Settled(b.purchases, hooks, op, user, BalanceOf(b.ledger, user), ids);
    && c.purchases.Keys == b.purchases.Keys
    && (forall id :: id in b.purchases ==> c.purchases[id] == if id in ids then Stamped(b.purchases[id], op, now) else b.purchases[id])
    && BalanceOf(c.ledger, user) == BalanceOf(b.ledger, user) + Signed(op, settled.1)
    && (forall u :: u != user ==> BalanceOf(c.ledger, u) == BalanceOf(b.ledger, u))
    && (OnlyCore(handlers) ==> sum == Summary(None, settled.0, [], settled.1))
  }

  lemma ProcessedEffect(b: Book, hooks: Hooks, handlers: seq<Handler>, op: Operation, items: seq<LineItem>, user: User, now: int)
    ensures var (c, sum) := Processed(b, hooks, handlers, op, items, user, now, NOTHING);
      Effect(b, c, sum, hooks, handlers, op, items, user, now)
  {
    ProcessedStamps(b.purchases, b, hooks, handlers, op, items, user, now, NOTHING, {});
    ProcessedMoves(b.purchases, b, hooks, handlers, op, items, user, now, NOTHING, {});
    if OnlyCore(handlers) {
      ProcessedReport(b.purchases, b, hooks, handlers, op, items, user, now, NOTHING, {});
      var reported := Settled(b.purchases, hooks, op, user, BalanceOf(b.ledger, user), Targets(b.purchases, handlers, op, items, {})).0;
      assert [] + reported == reported;
    }
  }

  // ---- When everything is moved ---------------------------------------------------------

  /** No hook objects to any of the movements of the full amounts, one after the other. */
  predicate Undisturbed(purchases: map<Id, Purchase>, hooks: Hooks, op: Operation, user: User, balance: int, ids: seq<Id>)
    decreases |ids|
  {
    ids == []
    || (var amount := AmountOf(purchases, ids[0]);
        && hooks(Full(op, user, balance, ids[0], amount))
        && Undisturbed(purchases, hooks, op, user, balance + Signed(op, amount), ids[1..]))
  }

  ghost predicate AllPositive(purchases: map<Id, Purchase>, ids: seq<Id>)
  {
    forall k :: 0 <= k < |ids| ==> AmountOf(purchases, ids[k]) > 0
  }

  lemma {:induction false} SettledWithin(purchases: map<Id, Purchase>, hooks: Hooks, op: Operation, user: User, balance: int, ids: seq<Id>)
    requires AllPositive(purchases, ids)
    ensures 0 <= Settled(purchases, hooks, op, user, balance, ids).1 <= Total(purchases, ids)
    decreases |ids|
  {
    if ids != [] {
      var m := Moves(hooks, op, user, balance, ids[0], AmountOf(purchases, ids[0]));
      assert AmountOf(purchases, ids[0]) > 0;
      forall k | 0 <= k < |ids[1..]| ensures AmountOf(purchases, ids[1..][k]) > 0 { assert ids[1..][k] == ids[k + 1]; }
      SettledWithin(purchases, hooks, op, user, balance + Signed(op, OrZero(m)), ids[1..]);
    }
  }

  lemma MovesInFull(hooks: Hooks, op: Operation, user: User, balance: int, id: Id, amount: int)
    requires amount > 0 && (op == Reverse ==> balance >= amount)
    ensures Moves(hooks, op, user, balance, id, amount) == if hooks(Full(op, user, balance, id, amount)) then Some(amount) else None
  {
  }

  lemma FirstMoves(purchases: map<Id, Purchase>, hooks: Hooks, op: Operation, user: User, balance: int, ids: seq<Id>)
    requires ids != [] && AmountOf(purchases, ids[0]) > 0 && (op == Reverse ==> balance >= AmountOf(purchases, ids[0]))
    requires hooks(Full(op, user, balance, ids[0], AmountOf(purchases, ids[0])))
    ensures var amount, next := AmountOf(purchases, ids[0]), balance + Signed(op, AmountOf(purchases, ids[0]));
      var rest := Settled(purchases, hooks, op, user, next, ids[1..]);
      && Settled(purchases, hooks, op, user, balance, ids) == ([ids[0]] + rest.0, amount + rest.1)
      && (Undisturbed(purchases, hooks, op, user, balance, ids) <==> Undisturbed(purchases, hooks, op, user, next, ids[1..]))
  {
    MovesInFull(hooks, op, user, balance, ids[0], AmountOf(purchases, ids[0]));
  }

  lemma FirstIsRefused(purchases: map<Id, Purchase>, hooks: Hooks, op: Operation, user: User, balance: int, ids: seq<Id>)
    requires ids != [] && AmountOf(purchases, ids[0]) > 0 && (op == Reverse ==> balance >= AmountOf(purchases, ids[0]))
    requires !hooks(Full(op, user, balance, ids[0], AmountOf(purchases, ids[0])))
    ensures Settled(purchases, hooks, op, user, balance, ids) == Settled(purchases, hooks, op, user, balance, ids[1..])
    ensures !Undisturbed(purchases, hooks, op, user, balance, ids)
  {
    MovesInFull(hooks, op, user, balance, ids[0], AmountOf(purchases, ids[0]));
  }

  /** Positive amounts, met by the balance where they are debited, are moved in full
      exactly when no hook objects to a movement. */
  lemma {:induction false} SettledInFullIff(purchases: map<Id, Purchase>, hooks: Hooks, op: Operation, user: User, balance: int, ids: seq<Id>)
    requires AllPositive(purchases, ids) && (op == Reverse ==> balance >= Total(purchases, ids))
    ensures Settled(purchases, hooks, op, user, balance, ids).1 == Total(purchases, ids)
       <==> Undisturbed(purchases, hooks, op, user, balance, ids)
    ensures Undisturbed(purchases, hooks, op, user, balance, ids) ==> Settled(purchases, hooks, op, user, balance, ids).0 == ids
    decreases |ids|
  {
    if ids != [] {
      var rest := ids[1..];
      var amount := AmountOf(purchases, ids[0]);
      assert amount > 0;
      forall k | 0 <= k < |rest| ensures AmountOf(purchases, rest[k]) > 0 { assert rest[k] == ids[k + 1]; }
      SettledWithin(purchases, hooks, op, user, balance, rest);
      if hooks(Full(op, user, balance, ids[0], amount)) {
        FirstMoves(purchases, hooks, op, user, balance, ids);
        SettledInFullIff(purchases, hooks, op, user, balance + Signed(op, amount), rest);
        assert ids == [ids[0]] + rest;
      } else {
        FirstIsRefused(purchases, hooks, op, user, balance, ids);
      }
    }
  }

  lemma TargetsArePositive(purchases: map<Id, Purchase>, handlers: seq<Handler>, op: Operation, items: seq<LineItem>)
    requires forall id :: id in purchases ==> purchases[id].amount > 0
    ensures AllPositive(purchases, Targets(purchases, handlers, op, items, {}))
  {
    TargetsMeaning(purchases, handlers, op, items, {});
    var ids := Targets(purchases, handlers, op, items, {});
    forall k | 0 <= k < |ids| ensures AmountOf(purchases, ids[k]) > 0 { assert ids[k] in ids; }
  }

  // ---- Capture --------------------------------------------------------------------------

  /** A capture pays the invoice and completes exactly the distinct pending purchases
      its core-owned lines mention. It credits the invoice's user what they settle
      for, and nobody else; with the core handler alone, the report says so. For
      positive amounts that is their total exactly when no hook objects. */
  lemma CaptureEffect(i: Invoice, b: Book, hooks: Hooks, handlers: seq<Handler>, e: Captured, now: int)
    ensures var ids := Targets(b.purchases, handlers, Activate, i.items, {});
      var balance := BalanceOf(b.ledger, i.user);
      var (i', c, sum) := CaptureHandled(i, b, hooks, handlers, e, now);
      && i'.status == Paid
      && Effect(b, c, sum, hooks, handlers, Activate, i.items, i.user, now)
      && (AllPositive(b.purchases, ids) ==>
            (Undisturbed(b.purchases, hooks, Activate, i.user, balance, ids)
             <==> BalanceOf(c.ledger, i.user) == balance + Total(b.purchases, ids)))
  {
    ProcessedEffect(b, hooks, handlers, Activate, i.items, i.user, now);
    var ids := Targets(b.purchases, handlers, Activate, i.items, {});
    if AllPositive(b.purchases, ids) {
      SettledInFullIff(b.purchases, hooks, Activate, i.user, BalanceOf(b.ledger, i.user), ids);
    }
  }

  /** Nothing is left for the operation to act on. */
  ghost predicate Exhausted(b: Book, handlers: seq<Handler>, op: Operation, items: seq<LineItem>)
  {
    forall k :: 0 <= k < |items| && CoreOwned(handlers, items[k]) ==> !Acts(b, op, items[k].itemId)
  }

  lemma {:induction false} ExhaustedIsIdle(b: Book, hooks: Hooks, handlers: seq<Handler>, op: Operation, items: seq<LineItem>,
                                           user: User, now: int, sum: Summary)
    requires Exhausted(b, handlers, op, items)
    ensures Processed(b, hooks, handlers, op, items, user, now, sum).0 == b
    decreases |items|
  {
    if items != [] {
      DispatchedIdle(b, hooks, handlers, op, items[0], user, now);
      forall k | 0 <= k < |items[1..]| && CoreOwned(handlers, items[1..][k]) ensures !Acts(b, op, items[1..][k].itemId) {
        assert items[1..][k] == items[k + 1];
      }
      ExhaustedIsIdle(b, hooks, handlers, op, items[1..], user, now, Collected(sum, op, Dispatched(b, hooks, handlers, op, items[0], user, now).1));
    }
  }

  lemma PerformedStopsActing(b: Book, hooks: Hooks, op: Operation, id: Id, user: User, now: int, x: Id)
    requires !Acts(b, op, x) || x == id
    ensures !Acts(Performed(b, hooks, op, id, user, now).0, op, x)
  {
  }

  lemma {:induction false} ProcessedStopsActing(b: Book, hooks: Hooks, handlers: seq<Handler>, op: Operation, items: seq<LineItem>,
                                                user: User, now: int, sum: Summary, x: Id)
    requires !Acts(b, op, x) || Mentions(handlers, items, x)
    ensures !Acts(Processed(b, hooks, handlers, op, items, user, now, sum).0, op, x)
    decreases |items|
  {
    if items != [] {
      var (b', r) := Dispatched(b, hooks, handlers, op, items[0], user, now);
      MentionsCons(handlers, items, x);
      if CoreOwned(handlers, items[0]) && (!Acts(b, op, x) || x == items[0].itemId) {
        PerformedStopsActing(b, hooks, op, items[0].itemId, user, now, x);
      }
      ProcessedStopsActing(b', hooks, handlers, op, items[1..], user, now, Collected(sum, op, r), x);
    }
  }

  lemma ProcessedExhausts(b: Book, hooks: Hooks, handlers: seq<Handler>, op: Operation, items: seq<LineItem>, user: User, now: int, sum: Summary)
    ensures Exhausted(Processed(b, hooks, handlers, op, items, user, now, sum).0, handlers, op, items)
  {
    forall k | 0 <= k < |items| && CoreOwned(handlers, items[k])
      ensures !Acts(Processed(b, hooks, handlers, op, items, user, now, sum).0, op, items[k].itemId)
    {
      assert Mentions(handlers, items, items[k].itemId);
      ProcessedStopsActing(b, hooks, handlers, op, items, user, now, sum, items[k].itemId);
    }
  }

  /** Every line the core handler owns under `later` it owned under `first`. */
  ghost predicate OwnsNoMore(later: seq<Handler>, first: seq<Handler>, items: seq<LineItem>)
  {
    forall k :: 0 <= k < |items| && CoreOwned(later, items[k]) ==> CoreOwned(first, items[k])
  }

  lemma StaysExhausted(b: Book, first: seq<Handler>, later: seq<Handler>, items: seq<LineItem>)
    requires Exhausted(b, first, Activate, items) && OwnsNoMore(later, first, items)
    ensures Exhausted(b, later, Activate, items)
  {
  }

  /** Replaying a capture, at any later time and whatever the hooks and handlers then
      answer, changes neither the invoice nor a purchase nor a balance, exactly when
      each purchase that was pending and belongs to a line the core handler owns at
      the replay belonged to one it owned at the first delivery. */
  lemma CaptureReplayIff(i: Invoice, b: Book, hooks: Hooks, hooks': Hooks, handlers: seq<Handler>, handlers': seq<Handler>,
                         e: Captured, now: int, later: int)
    ensures var (i', c, _) := CaptureHandled(i, b, hooks, handlers, e, now);
      var (i'', d, _) := CaptureHandled(i', c, hooks', handlers', e, later);
      i'' == i' && d == c <==>
        forall id :: Acts(b, Activate, id) && Mentions(handlers', i.items, id) ==> Mentions(handlers, i.items, id)
  {
    var (i', c, _) := CaptureHandled(i, b, hooks, handlers, e, now);
    var d := CaptureHandled(i', c, hooks', handlers', e, later).1;
    assert i'.metadata + e.metadata == i'.metadata;
    if id :| Acts(b, Activate, id) && Mentions(handlers', i.items, id) && !Mentions(handlers, i.items, id) {
      ProcessedEffect(b, hooks, handlers, Activate, i.items, i.user, now);
      TargetsMeaning(b.purchases, handlers, Activate, i.items, {});
      assert Acts(c, Activate, id);
      ProcessedStopsActing(c, hooks', handlers', Activate, i.items, i.user, later, NOTHING, id);
      assert d != c;
    } else {
      forall k | 0 <= k < |i.items| && CoreOwned(handlers', i.items[k]) ensures !Acts(c, Activate, i.items[k].itemId) {
        var id := i.items[k].itemId;
        assert Mentions(handlers', i.items, id);
        ProcessedStopsActing(b, hooks, handlers, Activate, i.items, i.user, now, NOTHING, id);
      }
      ExhaustedIsIdle(c, hooks', handlers', Activate, i'.items, i'.user, later, NOTHING);
    }
  }

  /** The time of a delivery, and the hooks and handlers that meet it. */
  datatype Delivery = Delivery(now: int, hooks: Hooks, handlers: seq<Handler>)

  function Delivered(i: Invoice, b: Book, e: Captured, ds: seq<Delivery>): (Invoice, Book)
    decreases |ds|
  {
    if ds == [] then (i, b)
    else
      var (i', c, _) := CaptureHandled(i, b, ds[0].hooks, ds[0].handlers, e, ds[0].now);
      Delivered(i', c, e, ds[1..])
  }

  lemma {:induction false} DeliveriesAreIdle(i: Invoice, b: Book, e: Captured, first: seq<Handler>, ds: seq<Delivery>)
    requires i.status == Paid && i.metadata + e.metadata == i.metadata && Exhausted(b, first, Activate, i.items)
    requires forall j :: 0 <= j < |ds| ==> OwnsNoMore(ds[j].handlers, first, i.items)
    ensures Delivered(i, b, e, ds) == (i, b)
    decreases |ds|
  {
    if ds != [] {
      assert OwnsNoMore(ds[0].handlers, first, i.items);
      StaysExhausted(b, first, ds[0].handlers, i.items);
      ExhaustedIsIdle(b, ds[0].hooks, ds[0].handlers, Activate, i.items, i.user, ds[0].now, NOTHING);
      forall j | 0 <= j < |ds[1..]| ensures OwnsNoMore(ds[1..][j].handlers, first, i.items) { assert ds[1..][j] == ds[j + 1]; }
      DeliveriesAreIdle(i, b, e, first, ds[1..]);
    }
  }

  /** Any number of deliveries of a capture, each at its own time and with its own
      hooks and handlers' answers, is its first delivery. */
  lemma CaptureManyTimes(i: Invoice, b: Book, e: Captured, ds: seq<Delivery>)
    requires ds != [] && forall j :: 0 <= j < |ds| ==> OwnsNoMore(ds[j].handlers, ds[0].handlers, i.items)
    ensures var (i', c, _) := CaptureHandled(i, b, ds[0].hooks, ds[0].handlers, e, ds[0].now);
      Delivered(i, b, e, ds) == (i', c)
  {
    var (i', c, _) := CaptureHandled(i, b, ds[0].hooks, ds[0].handlers, e, ds[0].now);
    ProcessedExhausts(b, ds[0].hooks, ds[0].handlers, Activate, i.items, i.user, ds[0].now, NOTHING);
    assert i'.metadata + e.metadata == i'.metadata;
    forall j | 0 <= j < |ds[1..]| ensures OwnsNoMore(ds[1..][j].handlers, ds[0].handlers, i'.items) {
      assert ds[1..][j] == ds[j + 1];
    }
    DeliveriesAreIdle(i', c, e, ds[0].handlers, ds[1..]);
  }

  /** Two events' metadata can arrive in either order exactly when they agree on
      the namespaces they share. */
  lemma MetadataCommutesIff(i: Invoice, m: map<string, string>, n: map<string, string>)
    ensures Merged(Merged(i, m), n) == Merged(Merged(i, n), m) <==> forall k :: k in m && k in n ==> m[k] == n[k]
  {
    var a, b := i.metadata + m + n, i.metadata + n + m;
    forall k | k in m && k in n ensures a[k] == n[k] && b[k] == m[k] {}
    if forall k :: k in m && k in n ==> m[k] == n[k] { assert a == b; }
  }

  /** A capture delivered again after a refund marks the invoice paid again but
      brings no purchase back and moves no token, whatever the hooks answer each
      time and whoever handles the refund. */
  lemma CaptureAfterRefund(i: Invoice, b: Book, e: Captured, capture: Delivery, refund: Delivery, replay: Delivery)
    requires OwnsNoMore(replay.handlers, capture.handlers, i.items)
    ensures var (i1, b1, _) := CaptureHandled(i, b, capture.hooks, capture.handlers, e, capture.now);
      var (i2, b2, _, refusal) := RefundProcessed(i1, b1, refund.hooks, refund.handlers, refund.now);
      var (i3, b3, _) := CaptureHandled(i2, b2, replay.hooks, replay.handlers, e, replay.now);
      i3.status == Paid && (refusal == Granted ==> i2.status == InvoiceRefunded) && b3 == b2
  {
    var (i1, b1, _) := CaptureHandled(i, b, capture.hooks, capture.handlers, e, capture.now);
    var (i2, b2, _, refusal) := RefundProcessed(i1, b1, refund.hooks, refund.handlers, refund.now);
    ProcessedExhausts(b, capture.hooks, capture.handlers, Activate, i.items, i.user, capture.now, NOTHING);
    forall k | 0 <= k < |i.items| && CoreOwned(replay.handlers, i.items[k]) ensures !Acts(b2, Activate, i.items[k].itemId) {
      NeverPendingAgain(b1, refund.hooks, refund.handlers, Reverse, i.items, i.user, refund.now, NOTHING, i.items[k].itemId);
    }
    ExhaustedIsIdle(b2, replay.hooks, replay.handlers, Activate, i2.items, i2.user, replay.now, NOTHING);
  }

  lemma {:induction false} NeverPendingAgain(b: Book, hooks: Hooks, handlers: seq<Handler>, op: Operation, items: seq<LineItem>,
                                             user: User, now: int, sum: Summary, x: Id)
    requires !Acts(b, Activate, x)
    ensures !Acts(Processed(b, hooks, handlers, op, items, user, now, sum).0, Activate, x)
    decreases |items|
  {
    if items != [] {
      var (b', r) := Dispatched(b, hooks, handlers, op, items[0], user, now);
      NeverPendingAgain(b', hooks, handlers, op, items[1..], user, now, Collected(sum, op, r), x);
    }
  }

  // ---- Refund and restoration -----------------------------------------------------------

  lemma {:induction false} CoreOwnsBundles(handlers: seq<Handler>, item: LineItem)
    ensures CoreOwned(handlers, item) ==> item.kind == TokenBundle
  {
    if handlers != [] && !handlers[0].Owns(item) { CoreOwnsBundles(handlers[1..], item); }
  }

  /** The line-by-line pre-check counts at least what the reversal will debit. */
  lemma {:induction false} PreCheckCovers(b: Book, handlers: seq<Handler>, items: seq<LineItem>, done: set<Id>)
    requires forall id :: id in b.purchases ==> b.purchases[id].amount > 0
    ensures Total(b.purchases, Targets(b.purchases, handlers, Reverse, items, done)) <= TokensToDebit(b, items)
  {
    if items != [] {
      var id, rest := items[0].itemId, items[1..];
      CoreOwnsBundles(handlers, items[0]);
      var taken := CoreOwned(handlers, items[0]) && id !in done && id in b.purchases && b.purchases[id].status == ActsOn(Reverse);
      var done' := if taken then done + {id} else done;
      PreCheckCovers(b, handlers, rest, done');
      if taken {
        var tail := Targets(b.purchases, handlers, Reverse, rest, done');
        assert ([id] + tail)[1..] == tail;
      }
    }
  }

  /** A refund that is refused changes nothing. One that is granted refunds exactly
      the distinct completed purchases of the invoice and debits what they settle
      for. In a sound book the debit is never clamped: it is their total exactly
      when no hook objects. */
  lemma RefundEffect(i: Invoice, b: Book, hooks: Hooks, handlers: seq<Handler>, now: int)
    ensures var ids := Targets(b.purchases, handlers, Reverse, i.items, {});
      var balance := BalanceOf(b.ledger, i.user);
      var (i', c, sum, refusal) := RefundProcessed(i, b, hooks, handlers, now);
      && (refusal != Granted ==> i' == i && c == b)
      && (refusal == Granted ==>
            && Effect(b, c, sum, hooks, handlers, Reverse, i.items, i.user, now)
            && (Sound(b) ==>
                  (Undisturbed(b.purchases, hooks, Reverse, i.user, balance, ids)
                   <==> BalanceOf(c.ledger, i.user) == balance - Total(b.purchases, ids))))
  {
    if RefundProcessed(i, b, hooks, handlers, now).3 == Granted {
      ProcessedEffect(b, hooks, handlers, Reverse, i.items, i.user, now);
      if Sound(b) { RefundIsCovered(i, b, hooks, handlers, now); }
    }
  }

  lemma RefundIsCovered(i: Invoice, b: Book, hooks: Hooks, handlers: seq<Handler>, now: int)
    requires Sound(b) && RefundProcessed(i, b, hooks, handlers, now).3 == Granted
    ensures var ids := Targets(b.purchases, handlers, Reverse, i.items, {});
      var balance := BalanceOf(b.ledger, i.user);
      && AllPositive(b.purchases, ids)
      && (Settled(b.purchases, hooks, Reverse, i.user, balance, ids).1 == Total(b.purchases, ids)
          <==> Undisturbed(b.purchases, hooks, Reverse, i.user, balance, ids))
  {
    PreCheckCovers(b, handlers, i.items, {});
    TargetsArePositive(b.purchases, handlers, Reverse, i.items);
    SettledInFullIff(b.purchases, hooks, Reverse, i.user, BalanceOf(b.ledger, i.user), Targets(b.purchases, handlers, Reverse, i.items, {}));
  }

  lemma {:induction false} SameTargets(p: map<Id, Purchase>, q: map<Id, Purchase>, handlers: seq<Handler>, op: Operation, op': Operation,
                                       items: seq<LineItem>, done: set<Id>)
    requires p.Keys == q.Keys
    requires forall id :: id in p && Mentions(handlers, items, id) ==> (p[id].status == ActsOn(op) <==> q[id].status == ActsOn(op'))
    ensures Targets(p, handlers, op, items, done) == Targets(q, handlers, op', items, done)
  {
    if items != [] {
      var id, rest := items[0].itemId, items[1..];
      MentionsCons(handlers, items, id);
      var taken := CoreOwned(handlers, items[0]) && id !in done && id in p && p[id].status == ActsOn(op);
      forall x | x in p && Mentions(handlers, rest, x) ensures p[x].status == ActsOn(op) <==> q[x].status == ActsOn(op') {
        MentionsCons(handlers, items, x);
      }
      SameTargets(p, q, handlers, op, op', rest, if taken then done + {id} else done);
    }
  }

  lemma {:induction false} SameTotals(p: map<Id, Purchase>, q: map<Id, Purchase>, ids: seq<Id>)
    requires p.Keys == q.Keys && forall id :: id in p ==> p[id].amount == q[id].amount
    ensures Total(p, ids) == Total(q, ids)
  {
    if ids != [] { SameTotals(p, q, ids[1..]); }
  }

  /** No line of the invoice refers to a purchase that was refunded before, or that is
      completed without its flag. */
  ghost predicate Restorable(b: Book, handlers: seq<Handler>, items: seq<LineItem>)
  {
    forall id :: id in b.purchases && Mentions(handlers, items, id) ==>
      b.purchases[id].status != PurchaseStatus.Refunded && (b.purchases[id].status == Completed ==> b.purchases[id].tokensCredited)
  }

  /** Whatever the hooks answer, restoring a granted refund gives the invoice back, and
      every purchase exactly when the purchases were restorable. */
  lemma RestoreGivesPurchasesBackIff(i: Invoice, b: Book, hooks: Hooks, hooks': Hooks, handlers: seq<Handler>, now: int, later: int)
    requires RefundProcessed(i, b, hooks, handlers, now).3 == Granted
    ensures var (i1, b1, _, _) := RefundProcessed(i, b, hooks, handlers, now);
      var (i2, b2, _, refusal) := RestoreProcessed(i1, b1, hooks', handlers, later);
      && refusal == Granted && i2 == i
      && (b2.purchases == b.purchases <==> Restorable(b, handlers, i.items))
      && (Restorable(b, handlers, i.items) ==>
            Targets(b1.purchases, handlers, Restore, i.items, {}) == Targets(b.purchases, handlers, Reverse, i.items, {}))
  {
    var (i1, b1, _, _) := RefundProcessed(i, b, hooks, handlers, now);
    var b2 := RestoreProcessed(i1, b1, hooks', handlers, later).1;
    var ids, ids1 := Targets(b.purchases, handlers, Reverse, i.items, {}), Targets(b1.purchases, handlers, Restore, i.items, {});
    RefundEffect(i, b, hooks, handlers, now);
    TargetsMeaning(b.purchases, handlers, Reverse, i.items, {});
    TargetsMeaning(b1.purchases, handlers, Restore, i.items, {});
    ProcessedEffect(b1, hooks', handlers, Restore, i.items, i.user, later);
    if Restorable(b, handlers, i.items) {
      SameTargets(b.purchases, b1.purchases, handlers, Reverse, Restore, i.items, {});
      assert ids1 == ids;
      forall id | id in b.purchases ensures b2.purchases[id] == b.purchases[id] {}
      assert b2.purchases == b.purchases;
    } else {
      var id :| id in b.purchases && Mentions(handlers, i.items, id)
        && (b.purchases[id].status == PurchaseStatus.Refunded || (b.purchases[id].status == Completed && !b.purchases[id].tokensCredited));
      assert id in ids1;
      assert b2.purchases[id] != b.purchases[id];
    }
  }

  /** Restoring undoes a refund whose debits went through completely, invoice,
      purchases and every balance, exactly when the purchases were restorable and no
      hook objects to crediting their amounts back. */
  lemma RestoreUndoesRefundIff(i: Invoice, b: Book, hooks: Hooks, hooks': Hooks, handlers: seq<Handler>, now: int, later: int)
    requires Sound(b) && RefundProcessed(i, b, hooks, handlers, now).3 == Granted
    requires Undisturbed(b.purchases, hooks, Reverse, i.user, BalanceOf(b.ledger, i.user), Targets(b.purchases, handlers, Reverse, i.items, {}))
    ensures var ids := Targets(b.purchases, handlers, Reverse, i.items, {});
      var (i1, b1, _, _) := RefundProcessed(i, b, hooks, handlers, now);
      var (i2, b2, _, refusal) := RestoreProcessed(i1, b1, hooks', handlers, later);
      && refusal == Granted && i2 == i
      && (b2.purchases == b.purchases && (forall u :: BalanceOf(b2.ledger, u) == BalanceOf(b.ledger, u))
          <==> Restorable(b, handlers, i.items)
               && Undisturbed(b1.purchases, hooks', Restore, i.user, BalanceOf(b.ledger, i.user) - Total(b.purchases, ids), ids))
  {
    var ids := Targets(b.purchases, handlers, Reverse, i.items, {});
    var (i1, b1, _, _) := RefundProcessed(i, b, hooks, handlers, now);
    RestoreGivesPurchasesBackIff(i, b, hooks, hooks', handlers, now, later);
    if Restorable(b, handlers, i.items) {
      RestoreMovesBack(i, b, hooks, hooks', handlers, now, later);
    }
  }

  lemma RestoreMovesBack(i: Invoice, b: Book, hooks: Hooks, hooks': Hooks, handlers: seq<Handler>, now: int, later: int)
    requires Sound(b) && RefundProcessed(i, b, hooks, handlers, now).3 == Granted && Restorable(b, handlers, i.items)
    requires Undisturbed(b.purchases, hooks, Reverse, i.user, BalanceOf(b.ledger, i.user), Targets(b.purchases, handlers, Reverse, i.items, {}))
    ensures var ids := Targets(b.purchases, handlers, Reverse, i.items, {});
      var (i1, b1, _, _) := RefundProcessed(i, b, hooks, handlers, now);
      var b2 := RestoreProcessed(i1, b1, hooks', handlers, later).1;
      (forall u :: BalanceOf(b2.ledger, u) == BalanceOf(b.ledger, u))
        <==> Undisturbed(b1.purchases, hooks', Restore, i.user, BalanceOf(b.ledger, i.user) - Total(b.purchases, ids), ids)
  {
    var ids := Targets(b.purchases, handlers, Reverse, i.items, {});
    var (i1, b1, _, _) := RefundProcessed(i, b, hooks, handlers, now);
    RestoreGivesPurchasesBackIff(i, b, hooks, hooks', handlers, now, later);
    RefundEffect(i, b, hooks, handlers, now);
    RefundIsCovered(i, b, hooks, handlers, now);
    ProcessedEffect(b1, hooks', handlers, Restore, i.items, i.user, later);
    SameTotals(b.purchases, b1.purchases, ids);
    forall k | 0 <= k < |ids| ensures AmountOf(b1.purchases, ids[k]) > 0 { assert AmountOf(b.purchases, ids[k]) > 0; }
    SettledInFullIff(b1.purchases, hooks', Restore, i.user, BalanceOf(b1.ledger, i.user), ids);
  }
}
