/** Token balances with their transaction rows, and token-bundle purchases, on values. */
module Tokens {
  import opened Versioning

  type User = nat
  type Id = nat

  // ---- Balances and rows ---------------------------------------------------------

  datatype Kind = PurchaseRow | RefundRow

  /** One balance change: its transaction row and what the movement hooks see. */
  datatype Movement = Movement(user: User, delta: int, balanceAfter: int, kind: Kind, reference: Id)

  /** Whether every registered movement hook lets the movement pass; one that
      raises undoes it. */
  type Hooks = Movement -> bool

  datatype Ledger = Ledger(balances: map<User, int>, rows: seq<Movement>)

  function BalanceOf(l: Ledger, user: User): int
  {
    if user in l.balances then l.balances[user] else 0
  }

  /** One unit of work: the balance moves and its row appears, or neither. */
  function Apply(l: Ledger, hooks: Hooks, m: Movement): (Ledger, bool)
  {
    if hooks(m) then (Ledger(l.balances[m.user := m.balanceAfter], l.rows + [m]), true) else (l, false)
  }

  /** `credit_tokens`; false stands for the exception on an amount that is not
      positive, or from a hook. */
  function AfterCredit(l: Ledger, hooks: Hooks, user: User, amount: int, reference: Id): (Ledger, bool)
  {
    if amount <= 0 then (l, false)
    else Apply(l, hooks, Movement(user, amount, BalanceOf(l, user) + amount, PurchaseRow, reference))
  }

  /** `refund_tokens`: debits at most the balance and says how much; None stands
      for the exception from a hook. */
  function AfterRefund(l: Ledger, hooks: Hooks, user: User, amount: int, reference: Id): (Ledger, Option<int>)
  {
    if BalanceOf(l, user) <= 0 then (l, Some(0))
    else
      var debit := if amount <= BalanceOf(l, user) then amount else BalanceOf(l, user);
      var (l', ok) := Apply(l, hooks, Movement(user, -debit, BalanceOf(l, user) - debit, RefundRow, reference));
      (l', if ok then Some(debit) else None)
  }

  /** A credit goes through exactly for a positive amount no hook objects to, and then the
      balance rises by it; else nothing changes. */
  lemma CreditMeaning(l: Ledger, hooks: Hooks, user: User, amount: int, reference: Id)
    ensures var (l', ok) := AfterCredit(l, hooks, user, amount, reference);
      var m := Movement(user, amount, BalanceOf(l, user) + amount, PurchaseRow, reference);
      && (ok <==> amount > 0 && hooks(m))
      && (ok ==> l'.rows == l.rows + [m] && BalanceOf(l', user) == BalanceOf(l, user) + amount)
      && (forall u :: u != user ==> BalanceOf(l', u) == BalanceOf(l, u))
      && (!ok ==> l' == l)
  {
  }

  /** A refund takes the amount or the whole balance, whichever is less, and nothing where
      there is none; only a hook can stop it. */
  lemma RefundMeaning(l: Ledger, hooks: Hooks, user: User, amount: int, reference: Id)
    ensures var (l', debited) := AfterRefund(l, hooks, user, amount, reference);
      var balance := BalanceOf(l, user);
      var m := Movement(user, -amount, balance - amount, RefundRow, reference);
      var all := Movement(user, -balance, 0, RefundRow, reference);
      && (balance <= 0 ==> l' == l && debited == Some(0))
      && (0 < balance && amount <= balance ==> debited == if hooks(m) then Some(amount) else None)
      && (0 < balance < amount ==> debited == if hooks(all) then Some(balance) else None)
      && (debited == None ==> l' == l)
      && (0 < balance && debited.Some? ==> l'.rows == l.rows + [if amount <= balance then m else all])
      && (debited.Some? ==> BalanceOf(l', user) == balance - debited.value)
      && (forall u :: u != user ==> BalanceOf(l', u) == BalanceOf(l, u))
  {
  }

  // ---- Purchases -------------------------------------------------------------------

  datatype PurchaseStatus = Pending | Completed | Refunded | Cancelled

  datatype Purchase = Purchase(status: PurchaseStatus, completedAt: Option<int>, tokensCredited: bool, amount: int)

  datatype Book = Book(purchases: map<Id, Purchase>, ledger: Ledger)

  datatype ItemKind = Subscription | TokenBundle | AddOn | Custom

  datatype LineItem = LineItem(kind: ItemKind, itemId: Id)

  datatype ItemData = ItemData(subscription: Option<string>, purchase: Option<Id>, addOn: Option<string>,
                               credited: int, debited: int)

  const NO_DATA := ItemData(None, None, None, 0, 0)

  datatype ItemResult = ItemResult(success: bool, skipped: bool, data: ItemData)

  /** Activation, reversal on refund, restoration of a refund. */
  datatype Operation = Activate | Reverse | Restore

  /** The status an operation acts on; any other status makes it do nothing. */
  function ActsOn(op: Operation): PurchaseStatus
  {
    match op
    case Activate => Pending
    case Reverse => Completed
    case Restore => PurchaseStatus.Refunded
  }

  /** The purchase record after an operation that acts on it. */
  function Stamped(p: Purchase, op: Operation, now: int): Purchase
  {
    match op
    case Activate => p.(status := Completed, completedAt := Some(now), tokensCredited := true)
    case Reverse => p.(status := PurchaseStatus.Refunded)
    case Restore => p.(status := Completed, tokensCredited := true)
  }

  predicate Acts(b: Book, op: Operation, id: Id)
  {
    id in b.purchases && b.purchases[id].status == ActsOn(op)
  }

  /** One token-bundle operation. The purchase record is saved first; an exception
      from the token service afterwards is reported as a failure. */
  function Performed(b: Book, hooks: Hooks, op: Operation, id: Id, user: User, now: int): (Book, ItemResult)
  {
    if !Acts(b, op, id) then (b, ItemResult(true, false, NO_DATA))
    else
      var p := b.purchases[id];
      var purchases := b.purchases[id := Stamped(p, op, now)];
      if op == Reverse then
        var (l, debited) := AfterRefund(b.ledger, hooks, user, p.amount, id);
        (Book(purchases, l), if debited == None then ItemResult(false, false, NO_DATA)
                             else ItemResult(true, false, NO_DATA.(purchase := Some(id), debited := debited.value)))
      else
        var (l, ok) := AfterCredit(b.ledger, hooks, user, p.amount, id);
        (Book(purchases, l), if !ok then ItemResult(false, false, NO_DATA)
                             else ItemResult(true, false, NO_DATA.(purchase := Some(id), credited := p.amount)))
  }

  // ---- Dispatch over line items ------------------------------------------------------

  /** The core handler owns token bundles; a plugin's handler owns what it says and
      answers as it likes, without touching purchases or balances. */
  datatype Handler = CoreHandler | PluginHandler(owns: LineItem -> bool, answer: (Operation, LineItem) -> ItemResult)
  {
    predicate Owns(item: LineItem)
    {
      match this
      case CoreHandler => item.kind == TokenBundle
      case PluginHandler(owns, _) => owns(item)
    }
  }

  /** The first handler that owns the item, if any. */
  function Owner(handlers: seq<Handler>, item: LineItem): Option<Handler>
  {
    if handlers == [] then None
    else if handlers[0].Owns(item) then Some(handlers[0])
    else Owner(handlers[1..], item)
  }

  /** Registration order decides: a handler registered later gets the items nobody
      before it owns, and takes none away from its predecessors. */
  lemma {:induction false} RegisteredLater(handlers: seq<Handler>, handler: Handler, item: LineItem)
    ensures Owner(handlers + [handler], item)
         == if Owner(handlers, item).Some? then Owner(handlers, item) else if handler.Owns(item) then Some(handler) else None
  {
    var all := handlers + [handler];
    if handlers == [] {
      assert all == [handler] && all[1..] == [];
    } else {
      assert all[0] == handlers[0] && all[1..] == handlers[1..] + [handler];
      RegisteredLater(handlers[1..], handler, item);
    }
  }

  function Dispatched(b: Book, hooks: Hooks, handlers: seq<Handler>, op: Operation, item: LineItem, user: User, now: int): (Book, ItemResult)
  {
    match Owner(handlers, item)
    case None => (b, ItemResult(true, true, NO_DATA))
    case Some(CoreHandler) => Performed(b, hooks, op, item.itemId, user, now)
    case Some(PluginHandler(_, answer)) => (b, answer(op, item))
  }

  /** What is reported for a whole invoice; `tokens` are credits for activation and
      restoration, debits for reversal. */
  datatype Summary = Summary(subscription: Option<string>, bundles: seq<Id>, addOns: seq<string>, tokens: int)

  const NOTHING := Summary(None, [], [], 0)

  function Collected(sum: Summary, op: Operation, r: ItemResult): Summary
  {
    if !r.success || r.skipped then sum
    else Summary(if r.data.subscription.Some? then r.data.subscription else sum.subscription,
                 if r.data.purchase.Some? then sum.bundles + [r.data.purchase.value] else sum.bundles,
                 if r.data.addOn.Some? then sum.addOns + [r.data.addOn.value] else sum.addOns,
                 sum.tokens + if op == Reverse then r.data.debited else r.data.credited)
  }

  /** The line items in turn. */
  function Processed(b: Book, hooks: Hooks, handlers: seq<Handler>, op: Operation, items: seq<LineItem>,
                     user: User, now: int, sum: Summary): (Book, Summary)
    decreases |items|
  {
    if items == [] then (b, sum)
    else
      var (b', r) := Dispatched(b, hooks, handlers, op, items[0], user, now);
      Processed(b', hooks, handlers, op, items[1..], user, now, Collected(sum, op, r))
  }

  // ---- Invoices ------------------------------------------------------------------------

  datatype InvoiceStatus = Open | Authorized | Paid | Failed | Void | InvoiceRefunded

  datatype Invoice = Invoice(user: User, status: InvoiceStatus, paymentRef: Option<string>, paymentMethod: Option<string>,
                             paidAt: Option<int>, metadata: map<string, string>, items: seq<LineItem>)

  datatype Captured = Captured(reference: Option<string>, provider: Option<string>, metadata: map<string, string>)

  /** `a or b or ""`: an absent or empty text is passed over. */
  function FirstOf(a: Option<string>, b: Option<string>): string
  {
    if a.Some? && a.value != "" then a.value else if b.Some? then b.value else ""
  }

  function MarkedPaid(i: Invoice, e: Captured, now: int): Invoice
  {
    if i.status == Paid then i
    else i.(status := Paid, paymentRef := e.reference, paymentMethod := Some(FirstOf(e.provider, i.paymentMethod)), paidAt := Some(now))
  }

  /** Each namespace of the event replaces that namespace of the invoice. */
  function Merged(i: Invoice, metadata: map<string, string>): Invoice
  {
    i.(metadata := i.metadata + metadata)
  }

  /** `PaymentCapturedHandler.handle` for an invoice that exists. */
  function CaptureHandled(i: Invoice, b: Book, hooks: Hooks, handlers: seq<Handler>, e: Captured, now: int): (Invoice, Book, Summary)
  {
    var i' := Merged(MarkedPaid(i, e, now), e.metadata);
    var (b', sum) := Processed(b, hooks, handlers, Activate, i.items, i.user, now, NOTHING);
    (i', b', sum)
  }

  /** What a refund would have to debit, counted line by line. */
  function TokensToDebit(b: Book, items: seq<LineItem>): int
  {
    if items == [] then 0
    else
      (if items[0].kind == TokenBundle && Acts(b, Reverse, items[0].itemId) then b.purchases[items[0].itemId].amount else 0)
        + TokensToDebit(b, items[1..])
  }

  datatype Refusal = Granted | WrongInvoiceStatus | InsufficientTokens

  /** `RefundService.process_refund` for an invoice that exists. */
  function RefundProcessed(i: Invoice, b: Book, hooks: Hooks, handlers: seq<Handler>, now: int): (Invoice, Book, Summary, Refusal)
  {
    if i.status != Paid then (i, b, NOTHING, WrongInvoiceStatus)
    else if TokensToDebit(b, i.items) > 0 && BalanceOf(b.ledger, i.user) < TokensToDebit(b, i.items)
      then (i, b, NOTHING, InsufficientTokens)
    else
      var (b', sum) := Processed(b, hooks, handlers, Reverse, i.items, i.user, now, NOTHING);
      (i.(status := InvoiceRefunded), b', sum, Granted)
  }

  /** `RestoreService.process_restore` for an invoice that exists. */
  function RestoreProcessed(i: Invoice, b: Book, hooks: Hooks, handlers: seq<Handler>, now: int): (Invoice, Book, Summary, Refusal)
  {
    if i.status != InvoiceRefunded then (i, b, NOTHING, WrongInvoiceStatus)
    else
      var (b', sum) := Processed(b, hooks, handlers, Restore, i.items, i.user, now, NOTHING);
      (i.(status := Paid), b', sum, Granted)
  }
}
