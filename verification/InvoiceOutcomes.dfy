/** What captures, refunds and restorations do, in plain terms: which token-bundle lines
    count, which purchases change and how, what is recorded, and when each is refused. */
module InvoiceOutcomes {
  import opened Versioning
  import opened Tokens
  import opened PurchaseRuns
  import opened InvoiceFlow

  // ---- Which lines are the core handler's ------------------------------------------------

  /** Some core handler is asked for the line: no plugin's handler before it claims it. */
  ghost predicate ReachesCore(handlers: seq<Handler>, item: LineItem)
  {
    exists k :: 0 <= k < |handlers| && handlers[k].CoreHandler?
                && forall j :: 0 <= j < k && handlers[j].PluginHandler? ==> !handlers[j].owns(item)
  }

  /** The first handler that claims a line owns it, a core handler every token-bundle
      line and a plugin's handler what it says; without such a handler nobody does. */
  lemma {:induction false} FirstClaimOwns(handlers: seq<Handler>, item: LineItem)
    ensures match Owner(handlers, item)
            case None =>
              forall k :: 0 <= k < |handlers| ==> if handlers[k].CoreHandler? then item.kind != TokenBundle else !handlers[k].owns(item)
            case Some(owner) =>
              exists k :: 0 <= k < |handlers| && handlers[k] == owner
                          && (if owner.CoreHandler? then item.kind == TokenBundle else owner.owns(item))
                          && forall j :: 0 <= j < k ==> if handlers[j].CoreHandler? then item.kind != TokenBundle else !handlers[j].owns(item)
  {
    if handlers != [] && !handlers[0].Owns(item) {
      var rest := handlers[1..];
      FirstClaimOwns(rest, item);
      if Owner(rest, item).Some? {
        var owner := Owner(rest, item).value;
        var k :| 0 <= k < |rest| && rest[k] == owner
                 && (if owner.CoreHandler? then item.kind == TokenBundle else owner.owns(item))
                 && forall j :: 0 <= j < k ==> if rest[j].CoreHandler? then item.kind != TokenBundle else !rest[j].owns(item);
        forall j | 0 <= j < k + 1 ensures if handlers[j].CoreHandler? then item.kind != TokenBundle else !handlers[j].owns(item) {
          if j > 0 { assert handlers[j] == rest[j - 1]; }
        }
        assert handlers[k + 1] == owner;
      } else {
        forall k | 0 <= k < |handlers| ensures if handlers[k].CoreHandler? then item.kind != TokenBundle else !handlers[k].owns(item) {
          if k > 0 { assert handlers[k] == rest[k - 1]; }
        }
      }
    }
  }

  /** The core handler owns exactly the token-bundle lines that no plugin's handler
      registered before it claims. */
  lemma {:induction false} CoreOwnedIff(handlers: seq<Handler>, item: LineItem)
    ensures CoreOwned(handlers, item) <==> item.kind == TokenBundle && ReachesCore(handlers, item)
  {
    if handlers != [] {
      var rest := handlers[1..];
      CoreOwnedIff(rest, item);
      if handlers[0].PluginHandler? && !handlers[0].owns(item) {
        if ReachesCore(rest, item) {
          var k :| 0 <= k < |rest| && rest[k].CoreHandler? && forall j :: 0 <= j < k && rest[j].PluginHandler? ==> !rest[j].owns(item);
          assert handlers[k + 1] == rest[k];
          forall j | 0 <= j < k + 1 && handlers[j].PluginHandler? ensures !handlers[j].owns(item) {
            if j > 0 { assert handlers[j] == rest[j - 1]; }
          }
        }
        if k :| 0 <= k < |handlers| && handlers[k].CoreHandler? && forall j :: 0 <= j < k && handlers[j].PluginHandler? ==> !handlers[j].owns(item) {
          assert rest[k - 1] == handlers[k];
          forall j | 0 <= j < k - 1 && rest[j].PluginHandler? ensures !rest[j].owns(item) { assert rest[j] == handlers[j + 1]; }
        }
      }
    }
  }

  /** With the core handler alone, it owns exactly the token-bundle lines. */
  lemma OnlyCoreOwnsBundles(handlers: seq<Handler>, item: LineItem)
    requires OnlyCore(handlers) && handlers != []
    ensures CoreOwned(handlers, item) <==> item.kind == TokenBundle
  {
    CoreOwnedIff(handlers, item);
    assert handlers[0] == CoreHandler;
  }

  /** A line nobody claims is skipped, and one a plugin's handler owns gets its answer;
      neither changes a purchase or a balance. */
  lemma OthersChangeNothing(b: Book, hooks: Hooks, handlers: seq<Handler>, op: Operation, item: LineItem, user: User, now: int)
    requires !(item.kind == TokenBundle && ReachesCore(handlers, item))
    ensures var (c, r) := Dispatched(b, hooks, handlers, op, item, user, now);
      && c == b
      && (Owner(handlers, item) == None ==> r.success && r.skipped)
      && (Owner(handlers, item).Some? ==> Owner(handlers, item).value.PluginHandler? && r == Owner(handlers, item).value.answer(op, item))
  {
    CoreOwnedIff(handlers, item);
  }

  /** A token-bundle line that reaches the core handler refers to the purchase. */
  ghost predicate Bundled(handlers: seq<Handler>, items: seq<LineItem>, id: Id)
  {
    exists k :: 0 <= k < |items| && items[k].itemId == id && items[k].kind == TokenBundle && ReachesCore(handlers, items[k])
  }

  lemma MentionsIsBundled(handlers: seq<Handler>, items: seq<LineItem>, id: Id)
    ensures Mentions(handlers, items, id) <==> Bundled(handlers, items, id)
  {
    forall k | 0 <= k < |items| ensures CoreOwned(handlers, items[k]) <==> items[k].kind == TokenBundle && ReachesCore(handlers, items[k]) {
      CoreOwnedIff(handlers, items[k]);
    }
  }

  /** The purchases of a status that such lines refer to, each listed once. */
  ghost predicate Lists(ids: seq<Id>, b: Book, handlers: seq<Handler>, items: seq<LineItem>, status: PurchaseStatus)
  {
    && (forall j, k :: 0 <= j < k < |ids| ==> ids[j] != ids[k])
    && forall id :: id in ids <==> id in b.purchases && b.purchases[id].status == status && Bundled(handlers, items, id)
  }

  lemma TargetsList(b: Book, handlers: seq<Handler>, op: Operation, items: seq<LineItem>)
    ensures Lists(Targets(b.purchases, handlers, op, items, {}), b, handlers, items,
                  if op == Activate then Pending else if op == Reverse then Completed else PurchaseStatus.Refunded)
  {
    TargetsMeaning(b.purchases, handlers, op, items, {});
    forall id ensures Mentions(handlers, items, id) <==> Bundled(handlers, items, id) { MentionsIsBundled(handlers, items, id); }
  }

  ghost predicate OthersKeepTheirBalance(b: Book, c: Book, user: User)
  {
    forall u :: u != user ==> BalanceOf(c.ledger, u) == BalanceOf(b.ledger, u)
  }

  ghost predicate AllAmountsPositive(b: Book)
  {
    forall id :: id in b.purchases ==> b.purchases[id].amount > 0
  }

  lemma {:induction false} PassingHooksDisturbNothing(purchases: map<Id, Purchase>, hooks: Hooks, op: Operation, user: User, balance: int, ids: seq<Id>)
    requires AllPass(hooks)
    ensures Undisturbed(purchases, hooks, op, user, balance, ids)
    decreases |ids|
  {
    if ids != [] {
      PassingHooksDisturbNothing(purchases, hooks, op, user, balance + Signed(op, AmountOf(purchases, ids[0])), ids[1..]);
    }
  }

  // ---- Capture --------------------------------------------------------------------------------

  /** What a capture records on its invoice. One already paid keeps its payment data; the
      method is the event's provider, else the invoice's method, empty texts passed over.
      The event's metadata replaces the invoice's, key by key. */
  ghost predicate PaymentRecorded(i: Invoice, i': Invoice, e: Captured, now: int)
  {
    && i'.user == i.user && i'.items == i.items && i'.status == Paid
    && (i.status == Paid ==> i'.paymentRef == i.paymentRef && i'.paymentMethod == i.paymentMethod && i'.paidAt == i.paidAt)
    && (i.status != Paid ==>
          && i'.paymentRef == e.reference && i'.paidAt == Some(now)
          && (e.provider.Some? && e.provider.value != "" ==> i'.paymentMethod == e.provider)
          && (e.provider in {None, Some("")} ==> i'.paymentMethod == if i.paymentMethod.Some? then i.paymentMethod else Some("")))
    && i'.metadata.Keys == i.metadata.Keys + e.metadata.Keys
    && forall k :: k in i'.metadata ==> i'.metadata[k] == if k in e.metadata then e.metadata[k] else i.metadata[k]
  }

  lemma CaptureRecords(i: Invoice, b: Book, hooks: Hooks, handlers: seq<Handler>, e: Captured, now: int)
    ensures PaymentRecorded(i, CaptureHandled(i, b, hooks, handlers, e, now).0, e, now)
  {
  }

  /** A capture completes all pending purchases of the token-bundle lines that reach the
      core handler, stamps and flags them, and changes no other purchase. Where hooks let
      movements pass, the invoice's user is credited the sum of their amounts. */
  lemma CaptureOutcome(i: Invoice, b: Book, hooks: Hooks, handlers: seq<Handler>, e: Captured, now: int) returns (ids: seq<Id>)
    ensures var c := CaptureHandled(i, b, hooks, handlers, e, now).1;
      && c.purchases.Keys == b.purchases.Keys
      && (forall id :: id in b.purchases ==>
            (c.purchases[id] == if b.purchases[id].status == Pending && Bundled(handlers, i.items, id)
            then b.purchases[id].(status := Completed, completedAt := Some(now), tokensCredited := true) else b.purchases[id]))
      && OthersKeepTheirBalance(b, c, i.user)
      && Lists(ids, b, handlers, i.items, Pending)
      && (AllPass(hooks) && AllAmountsPositive(b) ==>
            BalanceOf(c.ledger, i.user) == BalanceOf(b.ledger, i.user) + Total(b.purchases, ids))
  {
    ids := Targets(b.purchases, handlers, Activate, i.items, {});
    CaptureEffect(i, b, hooks, handlers, e, now);
    TargetsList(b, handlers, Activate, i.items);
    if AllPass(hooks) && AllAmountsPositive(b) {
      TargetsArePositive(b.purchases, handlers, Activate, i.items);
      PassingHooksDisturbNothing(b.purchases, hooks, Activate, i.user, BalanceOf(b.ledger, i.user), ids);
    }
  }

  // ---- Refund ---------------------------------------------------------------------------------

  function Sum(xs: seq<int>): int
  {
    if xs == [] then 0 else xs[0] + Sum(xs[1..])
  }

  /** What one line would have to give back: the amount of its purchase if it is a token
      bundle and the purchase is completed. */
  function Debt(b: Book, item: LineItem): int
  {
    if item.kind == TokenBundle && item.itemId in b.purchases && b.purchases[item.itemId].status == Completed
    then b.purchases[item.itemId].amount else 0
  }

  function Debts(b: Book, items: seq<LineItem>): seq<int>
  {
    seq(|items|, k requires 0 <= k < |items| => Debt(b, items[k]))
  }

  lemma {:induction false} PreCheckIsSum(b: Book, items: seq<LineItem>)
    ensures TokensToDebit(b, items) == Sum(Debts(b, items))
  {
    if items != [] {
      PreCheckIsSum(b, items[1..]);
      assert Debts(b, items)[1..] == Debts(b, items[1..]);
    }
  }

  /** Exactly when a refund is refused, and why: the invoice is not paid, or its lines add
      up to more than nothing and more than the balance. A purchase on two lines counts
      twice. A granted refund changes nothing of the invoice but its status. */
  lemma RefundGrantedIff(i: Invoice, b: Book, hooks: Hooks, handlers: seq<Handler>, now: int)
    ensures var (i', c, sum, refusal) := RefundProcessed(i, b, hooks, handlers, now);
      var debts := Sum(Debts(b, i.items));
      && (refusal == WrongInvoiceStatus <==> i.status != Paid)
      && (refusal == InsufficientTokens <==> i.status == Paid && 0 < debts && BalanceOf(b.ledger, i.user) < debts)
      && (refusal != Granted ==> i' == i && c == b && sum == Summary(None, [], [], 0))
      && (refusal == Granted ==> i' == i.(status := InvoiceRefunded))
  {
    PreCheckIsSum(b, i.items);
  }

  /** No two token-bundle lines refer to the same purchase. */
  ghost predicate NoDuplicates(items: seq<LineItem>)
  {
    forall j, k :: 0 <= j < k < |items| && items[j].kind == TokenBundle && items[k].kind == TokenBundle ==> items[j].itemId != items[k].itemId
  }

  lemma {:induction false} DebtIsTotal(b: Book, handlers: seq<Handler>, items: seq<LineItem>, done: set<Id>)
    requires NoDuplicates(items)
    requires forall k :: 0 <= k < |items| && items[k].kind == TokenBundle ==> items[k].itemId !in done && ReachesCore(handlers, items[k])
    ensures TokensToDebit(b, items) == Total(b.purchases, Targets(b.purchases, handlers, Reverse, items, done))
  {
    if items != [] {
      var id, rest := items[0].itemId, items[1..];
      CoreOwnedIff(handlers, items[0]);
      var tail := TargetsUnfold(b.purchases, handlers, Reverse, items, done);
      var done' := if Taken(b.purchases, handlers, Reverse, items[0], done) then done + {id} else done;
      forall k | 0 <= k < |rest| && rest[k].kind == TokenBundle ensures rest[k].itemId !in done' && ReachesCore(handlers, rest[k]) {
        assert rest[k] == items[k + 1] && (items[0].kind == TokenBundle ==> items[0].itemId != items[k + 1].itemId);
      }
      forall j, k | 0 <= j < k < |rest| && rest[j].kind == TokenBundle && rest[k].kind == TokenBundle ensures rest[j].itemId != rest[k].itemId {
        assert rest[j] == items[j + 1] && rest[k] == items[k + 1];
      }
      DebtIsTotal(b, handlers, rest, done');
      if Taken(b.purchases, handlers, Reverse, items[0], done) { assert ([id] + tail)[1..] == tail; }
    }
  }

  /** In a sound book, where every token-bundle line reaches the core handler and none is
      duplicated, a paid invoice is refunded if and only if the balance covers the total
      of its completed purchases. */
  lemma CoveredIffGranted(i: Invoice, b: Book, hooks: Hooks, handlers: seq<Handler>, now: int) returns (ids: seq<Id>)
    requires Sound(b) && i.status == Paid && NoDuplicates(i.items)
    requires forall k :: 0 <= k < |i.items| && i.items[k].kind == TokenBundle ==> ReachesCore(handlers, i.items[k])
    ensures Lists(ids, b, handlers, i.items, Completed)
    ensures RefundProcessed(i, b, hooks, handlers, now).3 == Granted <==> BalanceOf(b.ledger, i.user) >= Total(b.purchases, ids)
  {
    ids := Targets(b.purchases, handlers, Reverse, i.items, {});
    TargetsList(b, handlers, Reverse, i.items);
    DebtIsTotal(b, handlers, i.items, {});
  }

  /** A granted refund marks all completed purchases of the token-bundle lines that reach
      the core handler as refunded, and changes no other purchase. In a sound book, where
      hooks let movements pass, the invoice's user is debited the sum of their amounts. */
  lemma RefundOutcome(i: Invoice, b: Book, hooks: Hooks, handlers: seq<Handler>, now: int) returns (ids: seq<Id>)
    requires RefundProcessed(i, b, hooks, handlers, now).3 == Granted
    ensures var c := RefundProcessed(i, b, hooks, handlers, now).1;
      && c.purchases.Keys == b.purchases.Keys
      && (forall id :: id in b.purchases ==>
            (c.purchases[id] == if b.purchases[id].status == Completed && Bundled(handlers, i.items, id)
            then b.purchases[id].(status := PurchaseStatus.Refunded) else b.purchases[id]))
      && OthersKeepTheirBalance(b, c, i.user)
      && Lists(ids, b, handlers, i.items, Completed)
      && (AllPass(hooks) && Sound(b) ==>
            BalanceOf(c.ledger, i.user) == BalanceOf(b.ledger, i.user) - Total(b.purchases, ids))
  {
    ids := Targets(b.purchases, handlers, Reverse, i.items, {});
    RefundEffect(i, b, hooks, handlers, now);
    TargetsList(b, handlers, Reverse, i.items);
    if AllPass(hooks) { PassingHooksDisturbNothing(b.purchases, hooks, Reverse, i.user, BalanceOf(b.ledger, i.user), ids); }
  }

  // ---- Restoration ----------------------------------------------------------------------------

  /** A restoration is refused exactly for an invoice that is not refunded, and then changes
      nothing. Else the invoice is paid again, and all refunded purchases of the token-bundle
      lines that reach the core handler are completed and flagged again, with the time of
      their first completion; no other purchase changes. Where hooks let movements pass,
      the invoice's user is credited the sum of their amounts. */
  lemma RestoreOutcome(i: Invoice, b: Book, hooks: Hooks, handlers: seq<Handler>, now: int) returns (ids: seq<Id>)
    ensures var (i', c, sum, refusal) := RestoreProcessed(i, b, hooks, handlers, now);
      && refusal == (if i.status == InvoiceRefunded then Granted else WrongInvoiceStatus)
      && (refusal != Granted ==> i' == i && c == b && sum == Summary(None, [], [], 0))
      && (refusal == Granted ==>
            && i' == i.(status := Paid) && c.purchases.Keys == b.purchases.Keys
            && (forall id :: id in b.purchases ==>
                  (c.purchases[id] == if b.purchases[id].status == PurchaseStatus.Refunded && Bundled(handlers, i.items, id)
                  then b.purchases[id].(status := Completed, tokensCredited := true) else b.purchases[id]))
            && OthersKeepTheirBalance(b, c, i.user)
            && Lists(ids, b, handlers, i.items, PurchaseStatus.Refunded)
            && (AllPass(hooks) && AllAmountsPositive(b) ==>
                  BalanceOf(c.ledger, i.user) == BalanceOf(b.ledger, i.user) + Total(b.purchases, ids)))
  {
    ids := Targets(b.purchases, handlers, Restore, i.items, {});
    if i.status == InvoiceRefunded {
      ProcessedEffect(b, hooks, handlers, Restore, i.items, i.user, now);
      TargetsList(b, handlers, Restore, i.items);
      if AllPass(hooks) && AllAmountsPositive(b) {
        TargetsArePositive(b.purchases, handlers, Restore, i.items);
        PassingHooksDisturbNothing(b.purchases, hooks, Restore, i.user, BalanceOf(b.ledger, i.user), ids);
        SettledInFullIff(b.purchases, hooks, Restore, i.user, BalanceOf(b.ledger, i.user), ids);
      }
    }
  }

  // ---- The report -------------------------------------------------------------------------------

  /** What each line's handler answers, in line order. */
  function Answers(b: Book, hooks: Hooks, handlers: seq<Handler>, op: Operation, items: seq<LineItem>, user: User, now: int): seq<ItemResult>
    decreases |items|
  {
    if items == [] then []
    else
      var (c, r) := Dispatched(b, hooks, handlers, op, items[0], user, now);
      [r] + Answers(c, hooks, handlers, op, items[1..], user, now)
  }

  /** Of the answers that succeed and are no skips, what `f` finds in them, in order. */
  function Picked<T>(rs: seq<ItemResult>, f: ItemData -> Option<T>): seq<T>
  {
    if rs == [] then []
    else
      (if rs[0].success && !rs[0].skipped && f(rs[0].data).Some? then [f(rs[0].data).value] else []) + Picked(rs[1..], f)
  }

  function LastOr<T>(picked: seq<T>, otherwise: Option<T>): Option<T>
  {
    if picked == [] then otherwise else Some(picked[|picked| - 1])
  }

  function SubscriptionOf(d: ItemData): Option<string>
  {
    d.subscription
  }

  function PurchaseOf(d: ItemData): Option<Id>
  {
    d.purchase
  }

  function AddOnOf(d: ItemData): Option<string>
  {
    d.addOn
  }

  function CreditOf(d: ItemData): Option<int>
  {
    Some(d.credited)
  }

  function DebitOf(d: ItemData): Option<int>
  {
    Some(d.debited)
  }

  /** The report, whoever handles the lines: the last subscription, all purchases and all
      add-ons that the answers name, and the sum of the tokens they report. */
  ghost predicate Reports(sum: Summary, sum': Summary, op: Operation, rs: seq<ItemResult>)
  {
    && sum'.subscription == LastOr(Picked(rs, SubscriptionOf), sum.subscription)
    && sum'.bundles == sum.bundles + Picked(rs, PurchaseOf)
    && sum'.addOns == sum.addOns + Picked(rs, AddOnOf)
    && sum'.tokens == sum.tokens + (if op == Reverse then Sum(Picked(rs, DebitOf)) else Sum(Picked(rs, CreditOf)))
  }

  lemma {:induction false} ReportMeaning(b: Book, hooks: Hooks, handlers: seq<Handler>, op: Operation, items: seq<LineItem>,
                                         user: User, now: int, sum: Summary)
    ensures Reports(sum, Processed(b, hooks, handlers, op, items, user, now, sum).1, op,
                    Answers(b, hooks, handlers, op, items, user, now))
    decreases |items|
  {
    if items == [] {
      assert sum.bundles + [] == sum.bundles && sum.addOns + [] == sum.addOns;
    } else {
      var (c, r) := Dispatched(b, hooks, handlers, op, items[0], user, now);
      ReportMeaning(c, hooks, handlers, op, items[1..], user, now, Collected(sum, op, r));
      OneMoreAnswer(sum, Processed(b, hooks, handlers, op, items, user, now, sum).1, op, r,
                    Answers(c, hooks, handlers, op, items[1..], user, now));
    }
  }

  lemma OneMoreAnswer(sum: Summary, sum': Summary, op: Operation, r: ItemResult, rest: seq<ItemResult>)
    requires Reports(Collected(sum, op, r), sum', op, rest)
    ensures Reports(sum, sum', op, [r] + rest)
  {
    PickedCons(r, rest, SubscriptionOf);
    PickedCons(r, rest, PurchaseOf);
    PickedCons(r, rest, AddOnOf);
    SumPicked(r, rest, DebitOf);
    SumPicked(r, rest, CreditOf);
    Extended(sum.bundles, PickedOne(r, PurchaseOf), Picked(rest, PurchaseOf));
    Extended(sum.addOns, PickedOne(r, AddOnOf), Picked(rest, AddOnOf));
  }

  function PickedOne<T>(r: ItemResult, f: ItemData -> Option<T>): seq<T>
  {
    if r.success && !r.skipped && f(r.data).Some? then [f(r.data).value] else []
  }

  lemma PickedCons<T>(r: ItemResult, rest: seq<ItemResult>, f: ItemData -> Option<T>)
    ensures Picked([r] + rest, f) == PickedOne(r, f) + Picked(rest, f)
  {
    assert ([r] + rest)[1..] == rest;
  }

  lemma SumPicked(r: ItemResult, rest: seq<ItemResult>, f: ItemData -> Option<int>)
    ensures Sum(Picked([r] + rest, f))
         == (if r.success && !r.skipped && f(r.data).Some? then f(r.data).value else 0) + Sum(Picked(rest, f))
  {
    PickedCons(r, rest, f);
    if r.success && !r.skipped && f(r.data).Some? {
      SumCons(f(r.data).value, Picked(rest, f));
    } else {
      assert [] + Picked(rest, f) == Picked(rest, f);
    }
  }

  lemma Extended<T>(a: seq<T>, b: seq<T>, c: seq<T>)
    ensures a + b + c == a + (b + c)
    ensures b == [] ==> a + b == a
  {
  }

  lemma SumCons(x: int, xs: seq<int>)
    ensures Sum([x] + xs) == x + Sum(xs)
  {
    assert ([x] + xs)[1..] == xs;
  }
}
