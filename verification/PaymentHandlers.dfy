/** The token service, the line-item handlers and the invoice services as objects;
    every method is proved against its specification on values. */
module PaymentHandlers {
  import opened Versioning
  import opened Tokens

  class TokenService {
    var balances: map<User, int>
    var rows: seq<Movement>
    const hooks: Hooks

    constructor (hooks: Hooks)
      ensures this.hooks == hooks && View() == Ledger(map[], [])
    {
      this.hooks, balances, rows := hooks, map[], [];
    }

    function View(): Ledger
      reads this
    {
      Ledger(balances, rows)
    }

    method GetBalance(user: User) returns (balance: int)
      ensures balance == BalanceOf(View(), user)
    {
      balance := if user in balances then balances[user] else 0;
    }

    /** The single home of every movement: balance and row together, or neither. */
    method ApplyMovement(m: Movement) returns (ok: bool)
      modifies this
      ensures (View(), ok) == Apply(old(View()), hooks, m)
    {
      if !hooks(m) {
        return false;
      }
      balances := balances[m.user := m.balanceAfter];
      rows := rows + [m];
      return true;
    }

    method CreditTokens(user: User, amount: int, reference: Id) returns (ok: bool)
      modifies this
      ensures (View(), ok) == AfterCredit(old(View()), hooks, user, amount, reference)
    {
      if amount <= 0 {
        return false;
      }
      var balance := GetBalance(user);
      ok := ApplyMovement(Movement(user, amount, balance + amount, PurchaseRow, reference));
    }

    method RefundTokens(user: User, amount: int, reference: Id) returns (debited: Option<int>)
      modifies this
      ensures (View(), debited) == AfterRefund(old(View()), hooks, user, amount, reference)
    {
      var balance := GetBalance(user);
      if balance <= 0 {
        return Some(0);
      }
      var debit := if amount <= balance then amount else balance;
      var ok := ApplyMovement(Movement(user, -debit, balance - debit, RefundRow, reference));
      return if ok then Some(debit) else None;
    }
  }

  class PurchaseRepository {
    var rows: map<Id, Purchase>

    constructor (rows: map<Id, Purchase>)
      ensures this.rows == rows
    {
      this.rows := rows;
    }

    method FindById(id: Id) returns (p: Option<Purchase>)
      ensures p == if id in rows then Some(rows[id]) else None
    {
      p := if id in rows then Some(rows[id]) else None;
    }

    method Save(id: Id, p: Purchase)
      modifies this
      ensures rows == old(rows)[id := p]
    {
      rows := rows[id := p];
    }
  }

  class CoreLineItemHandler {
    const purchases: PurchaseRepository
    const tokens: TokenService

    constructor (purchases: PurchaseRepository, tokens: TokenService)
      ensures this.purchases == purchases && this.tokens == tokens
    {
      this.purchases, this.tokens := purchases, tokens;
    }

    function View(): Book
      reads purchases, tokens
    {
      Book(purchases.rows, tokens.View())
    }

    method ActivateTokenBundle(id: Id, user: User, now: int) returns (r: ItemResult)
      modifies purchases, tokens
      ensures (View(), r) == Performed(old(View()), tokens.hooks, Activate, id, user, now)
    {
      var found := purchases.FindById(id);
      if found == None || found.value.status != Pending {
        return ItemResult(true, false, NO_DATA);
      }
      var p := found.value;
      purchases.Save(id, p.(status := Completed, completedAt := Some(now), tokensCredited := true));
      var ok := tokens.CreditTokens(user, p.amount, id);
      if !ok {
        return ItemResult(false, false, NO_DATA);
      }
      return ItemResult(true, false, NO_DATA.(purchase := Some(id), credited := p.amount));
    }

    method ReverseTokenBundle(id: Id, user: User, now: int) returns (r: ItemResult)
      modifies purchases, tokens
      ensures (View(), r) == Performed(old(View()), tokens.hooks, Reverse, id, user, now)
    {
      var found := purchases.FindById(id);
      if found == None || found.value.status != Completed {
        return ItemResult(true, false, NO_DATA);
      }
      var p := found.value;
      purchases.Save(id, p.(status := PurchaseStatus.Refunded));
      var debited := tokens.RefundTokens(user, p.amount, id);
      if debited == None {
        return ItemResult(false, false, NO_DATA);
      }
      return ItemResult(true, false, NO_DATA.(purchase := Some(id), debited := debited.value));
    }

    method RestoreTokenBundle(id: Id, user: User, now: int) returns (r: ItemResult)
      modifies purchases, tokens
      ensures (View(), r) == Performed(old(View()), tokens.hooks, Restore, id, user, now)
    {
      var found := purchases.FindById(id);
      if found == None || found.value.status != PurchaseStatus.Refunded {
        return ItemResult(true, false, NO_DATA);
      }
      var p := found.value;
      purchases.Save(id, p.(status := Completed, tokensCredited := true));
      var ok := tokens.CreditTokens(user, p.amount, id);
      if !ok {
        return ItemResult(false, false, NO_DATA);
      }
      return ItemResult(true, false, NO_DATA.(purchase := Some(id), credited := p.amount));
    }
  }

  class LineItemHandlerRegistry {
    var handlers: seq<Handler>
    const core: CoreLineItemHandler

    constructor (core: CoreLineItemHandler)
      ensures handlers == [] && this.core == core
    {
      handlers, this.core := [], core;
    }

    method Register(handler: Handler)
      modifies this
      ensures handlers == old(handlers) + [handler]
      ensures forall item :: Owner(handlers, item)
                == if Owner(old(handlers), item).Some? then Owner(old(handlers), item) else if handler.Owns(item) then Some(handler) else None
    {
      handlers := handlers + [handler];
      forall item
        ensures Owner(handlers, item)
             == if Owner(old(handlers), item).Some? then Owner(old(handlers), item) else if handler.Owns(item) then Some(handler) else None
      {
        RegisteredLater(old(handlers), handler, item);
      }
    }

    method Clear()
      modifies this
      ensures handlers == []
      ensures forall b, hooks, op, item, user, now ::
                Dispatched(b, hooks, handlers, op, item, user, now) == (b, ItemResult(true, true, NO_DATA))
    {
      handlers := [];
    }

    /** The first handler that owns the item performs the operation. */
    method Dispatch(op: Operation, item: LineItem, user: User, now: int) returns (r: ItemResult)
      modifies core.purchases, core.tokens
      ensures (core.View(), r) == Dispatched(old(core.View()), core.tokens.hooks, handlers, op, item, user, now)
    {
      assert handlers[0..] == handlers;
      for i := 0 to |handlers|
        invariant core.View() == old(core.View())
        invariant Owner(handlers, item) == Owner(handlers[i..], item)
      {
        assert handlers[i..][0] == handlers[i] && handlers[i..][1..] == handlers[i + 1..];
        var handler := handlers[i];
        if handler.Owns(item) {
          if handler.PluginHandler? {
            return handler.answer(op, item);
          }
          match op {
            case Activate => r := core.ActivateTokenBundle(item.itemId, user, now);
            case Reverse => r := core.ReverseTokenBundle(item.itemId, user, now);
            case Restore => r := core.RestoreTokenBundle(item.itemId, user, now);
          }
          return;
        }
      }
      return ItemResult(true, true, NO_DATA);
    }

    /** The loop the capture handler and the two services share: every line item in
        turn, collecting what was done. */
    method ProcessItems(op: Operation, items: seq<LineItem>, user: User, now: int) returns (sum: Summary)
      modifies core.purchases, core.tokens
      ensures (core.View(), sum) == Processed(old(core.View()), core.tokens.hooks, handlers, op, items, user, now, NOTHING)
    {
      sum := NOTHING;
      assert items[0..] == items;
      for i := 0 to |items|
        invariant Processed(core.View(), core.tokens.hooks, handlers, op, items[i..], user, now, sum)
               == Processed(old(core.View()), core.tokens.hooks, handlers, op, items, user, now, NOTHING)
      {
        assert items[i..][0] == items[i] && items[i..][1..] == items[i + 1..];
        var r := Dispatch(op, items[i], user, now);
        if r.success && !r.skipped {
          if r.data.subscription.Some? {
            sum := sum.(subscription := r.data.subscription);
          }
          if r.data.purchase.Some? {
            sum := sum.(bundles := sum.bundles + [r.data.purchase.value]);
          }
          if r.data.addOn.Some? {
            sum := sum.(addOns := sum.addOns + [r.data.addOn.value]);
          }
          sum := sum.(tokens := sum.tokens + if op == Reverse then r.data.debited else r.data.credited);
        }
      }
      assert items[|items|..] == [];
    }
  }

  class UserInvoice {
    const user: User
    const items: seq<LineItem>
    var status: InvoiceStatus
    var paymentRef: Option<string>
    var paymentMethod: Option<string>
    var paidAt: Option<int>
    var metadata: map<string, string>

    constructor (user: User, items: seq<LineItem>)
      ensures View() == Invoice(user, Open, None, None, None, map[], items)
    {
      this.user, this.items, status := user, items, Open;
      paymentRef, paymentMethod, paidAt, metadata := None, None, None, map[];
    }

    function View(): Invoice
      reads this
    {
      Invoice(user, status, paymentRef, paymentMethod, paidAt, metadata, items)
    }

    method MarkPaid(reference: Option<string>, provider: string, now: int)
      modifies this
      ensures View() == old(View()).(status := Paid, paymentRef := reference, paymentMethod := Some(provider), paidAt := Some(now))
    {
      status, paymentRef, paymentMethod, paidAt := Paid, reference, Some(provider), Some(now);
    }

    method MarkRefunded()
      modifies this
      ensures View() == old(View()).(status := InvoiceRefunded)
    {
      status := InvoiceRefunded;
    }
  }

  /** Looking an invoice up; None stands for "not found". */
  method FindInvoice(invoices: map<Id, UserInvoice>, id: Id) returns (invoice: UserInvoice?)
    ensures invoice == null <==> id !in invoices
    ensures invoice != null ==> invoice == invoices[id]
  {
    if id in invoices { invoice := invoices[id]; } else { invoice := null; }
  }

  class PaymentCapturedHandler {
    const registry: LineItemHandlerRegistry

    constructor (registry: LineItemHandlerRegistry)
      ensures this.registry == registry
    {
      this.registry := registry;
    }

    /** Handling of a captured payment; None is the error for an unknown invoice. */
    method Handle(invoices: map<Id, UserInvoice>, id: Id, e: Captured, now: int) returns (report: Option<Summary>)
      modifies invoices.Values, registry.core.purchases, registry.core.tokens
      ensures report == None <==> id !in invoices
      ensures id !in invoices ==> registry.core.View() == old(registry.core.View())
      ensures forall k :: k in invoices && (id !in invoices || invoices[k] != invoices[id]) ==> invoices[k].View() == old(invoices[k].View())
      ensures id in invoices ==>
        (invoices[id].View(), registry.core.View(), report.value)
          == CaptureHandled(old(invoices[id].View()), old(registry.core.View()), registry.core.tokens.hooks, registry.handlers, e, now)
    {
      var invoice := FindInvoice(invoices, id);
      if invoice == null {
        return None;
      }
      if invoice.status != Paid {
        var provider := if e.provider.Some? && e.provider.value != "" then e.provider.value
                        else if invoice.paymentMethod.Some? then invoice.paymentMethod.value else "";
        invoice.MarkPaid(e.reference, provider, now);
      }
      if e.metadata != map[] {
        invoice.metadata := invoice.metadata + e.metadata;
      }
      assert invoice.View() == Merged(MarkedPaid(old(invoice.View()), e, now), e.metadata);
      var sum := registry.ProcessItems(Activate, invoice.items, invoice.user, now);
      return Some(sum);
    }
  }

  class RefundService {
    const registry: LineItemHandlerRegistry

    constructor (registry: LineItemHandlerRegistry)
      ensures this.registry == registry
    {
      this.registry := registry;
    }

    method CalculateTokensToDebit(items: seq<LineItem>) returns (total: int)
      ensures total == TokensToDebit(registry.core.View(), items)
    {
      total := 0;
      assert items[0..] == items;
      for i := 0 to |items|
        invariant TokensToDebit(registry.core.View(), items) == total + TokensToDebit(registry.core.View(), items[i..])
      {
        assert items[i..][0] == items[i] && items[i..][1..] == items[i + 1..];
        if items[i].kind == TokenBundle {
          var p := registry.core.purchases.FindById(items[i].itemId);
          if p.Some? && p.value.status == Completed {
            total := total + p.value.amount;
          }
        }
      }
    }

    method ProcessRefund(invoice: UserInvoice, now: int) returns (sum: Summary, refusal: Refusal)
      modifies invoice, registry.core.purchases, registry.core.tokens
      ensures (invoice.View(), registry.core.View(), sum, refusal)
        == RefundProcessed(old(invoice.View()), old(registry.core.View()), registry.core.tokens.hooks, registry.handlers, now)
    {
      if invoice.status != Paid {
        return NOTHING, WrongInvoiceStatus;
      }
      var needed := CalculateTokensToDebit(invoice.items);
      if needed > 0 {
        var balance := registry.core.tokens.GetBalance(invoice.user);
        if balance < needed {
          return NOTHING, InsufficientTokens;
        }
      }
      invoice.MarkRefunded();
      sum := registry.ProcessItems(Reverse, invoice.items, invoice.user, now);
      refusal := Granted;
    }
  }

  class RestoreService {
    const registry: LineItemHandlerRegistry

    constructor (registry: LineItemHandlerRegistry)
      ensures this.registry == registry
    {
      this.registry := registry;
    }

    method ProcessRestore(invoice: UserInvoice, now: int) returns (sum: Summary, refusal: Refusal)
      modifies invoice, registry.core.purchases, registry.core.tokens
      ensures (invoice.View(), registry.core.View(), sum, refusal)
        == RestoreProcessed(old(invoice.View()), old(registry.core.View()), registry.core.tokens.hooks, registry.handlers, now)
    {
      if invoice.status != InvoiceRefunded {
        return NOTHING, WrongInvoiceStatus;
      }
      invoice.status := Paid;
      sum := registry.ProcessItems(Restore, invoice.items, invoice.user, now);
      refusal := Granted;
    }
  }
}
