/** Token-bundle purchases over whole runs: any operations, on any purchases, in
    any order and any number of times. */
module PurchaseRuns {
  import opened Tokens

  datatype Op = Op(kind: Operation, id: Id, user: User, now: int)

  function Run(b: Book, hooks: Hooks, ops: seq<Op>): Book
  {
    if ops == [] then b
    else
      var op := ops[|ops| - 1];
      Performed(Run(b, hooks, ops[..|ops| - 1]), hooks, op.kind, op.id, op.user, op.now).0
  }

  // ---- Every balance is explained by its rows ---------------------------------------

  function SumFor(rows: seq<Movement>, user: User): int
  {
    if rows == [] then 0
    else SumFor(rows[..|rows| - 1], user) + if rows[|rows| - 1].user == user then rows[|rows| - 1].delta else 0
  }

  /** The balances are the given opening balances plus the rows. */
  ghost predicate Explained(l: Ledger, opening: User -> int)
  {
    forall u :: BalanceOf(l, u) == opening(u) + SumFor(l.rows, u)
  }

  lemma ApplyKeepsExplained(l: Ledger, hooks: Hooks, m: Movement, opening: User -> int)
    requires Explained(l, opening) && m.balanceAfter == BalanceOf(l, m.user) + m.delta
    ensures Explained(Apply(l, hooks, m).0, opening)
  {
    assert (l.rows + [m])[..|l.rows + [m]| - 1] == l.rows;
  }

  /** An operation changes the ledger by at most one unit of work, whose balance
      is the old one plus its delta. */
  lemma LedgerStep(b: Book, hooks: Hooks, op: Operation, id: Id, user: User, now: int) returns (m: Movement)
    ensures var l := Performed(b, hooks, op, id, user, now).0.ledger;
      l == b.ledger || (l == Apply(b.ledger, hooks, m).0 && m.balanceAfter == BalanceOf(b.ledger, m.user) + m.delta)
  {
    var balance := BalanceOf(b.ledger, user);
    m := Movement(user, 0, balance, PurchaseRow, id);
    if Acts(b, op, id) {
      var amount := b.purchases[id].amount;
      if op == Reverse {
        var debit := if amount <= balance then amount else balance;
        m := Movement(user, -debit, balance - debit, RefundRow, id);
      } else {
        m := Movement(user, amount, balance + amount, PurchaseRow, id);
      }
    }
  }

  lemma PerformedKeepsExplained(b: Book, hooks: Hooks, op: Operation, id: Id, user: User, now: int, opening: User -> int)
    requires Explained(b.ledger, opening)
    ensures Explained(Performed(b, hooks, op, id, user, now).0.ledger, opening)
  {
    var m := LedgerStep(b, hooks, op, id, user, now);
    if m.balanceAfter == BalanceOf(b.ledger, m.user) + m.delta {
      ApplyKeepsExplained(b.ledger, hooks, m, opening);
    }
  }

  /** Conservation: whatever happens, hooks that veto and amounts that are refused
      included, every balance is its opening value plus all credits minus all
      actual debits. */
  lemma {:induction false} RunIsExplained(b: Book, hooks: Hooks, ops: seq<Op>, opening: User -> int)
    requires Explained(b.ledger, opening)
    ensures Explained(Run(b, hooks, ops).ledger, opening)
  {
    if ops != [] {
      var op := ops[|ops| - 1];
      RunIsExplained(b, hooks, ops[..|ops| - 1], opening);
      PerformedKeepsExplained(Run(b, hooks, ops[..|ops| - 1]), hooks, op.kind, op.id, op.user, op.now, opening);
    }
  }

  // ---- How often each operation acts ---------------------------------------------------

  /** How many operations of one kind on one purchase took effect in a run. */
  function Times(b: Book, hooks: Hooks, ops: seq<Op>, kind: Operation, id: Id): nat
  {
    if ops == [] then 0
    else
      var op := ops[|ops| - 1];
      Times(b, hooks, ops[..|ops| - 1], kind, id)
        + if op.kind == kind && op.id == id && Acts(Run(b, hooks, ops[..|ops| - 1]), kind, id) then 1 else 0
  }

  function One(condition: bool): nat
  {
    if condition then 1 else 0
  }

  /** A purchase that began pending, at any later point: it was activated at most
      once, and exactly if it left the pending state; activations and restorations
      exceed reversals by one exactly while it is completed; the credited flag is
      set exactly while it is completed or refunded; it never becomes cancelled;
      and its amount never changes. */
  lemma {:induction false} RunCounts(b: Book, hooks: Hooks, ops: seq<Op>, id: Id)
    requires id in b.purchases && b.purchases[id].status == Pending && !b.purchases[id].tokensCredited
    ensures var c := Run(b, hooks, ops);
      && id in c.purchases && c.purchases[id].amount == b.purchases[id].amount
      && Times(b, hooks, ops, Activate, id) == One(c.purchases[id].status != Pending)
      && Times(b, hooks, ops, Activate, id) + Times(b, hooks, ops, Restore, id) - Times(b, hooks, ops, Reverse, id)
           == One(c.purchases[id].status == Completed)
      && c.purchases[id].tokensCredited == (c.purchases[id].status in {Completed, PurchaseStatus.Refunded})
      && c.purchases[id].status != Cancelled
      && (c.purchases[id].status != Pending ==> c.purchases[id].completedAt.Some?)
  {
    if ops != [] {
      RunCounts(b, hooks, ops[..|ops| - 1], id);
    }
  }

  /** A cancelled purchase stays exactly as it is. */
  lemma {:induction false} CancelledStays(b: Book, hooks: Hooks, ops: seq<Op>, id: Id)
    requires id in b.purchases && b.purchases[id].status == Cancelled
    ensures id in Run(b, hooks, ops).purchases && Run(b, hooks, ops).purchases[id] == b.purchases[id]
  {
    if ops != [] {
      CancelledStays(b, hooks, ops[..|ops| - 1], id);
    }
  }

  // ---- What reaches the ledger -----------------------------------------------------------

  function CreditRows(rows: seq<Movement>, id: Id): nat
  {
    if rows == [] then 0
    else CreditRows(rows[..|rows| - 1], id) + One(rows[|rows| - 1].kind == PurchaseRow && rows[|rows| - 1].reference == id)
  }

  /** An activation that acts adds its row exactly when the amount is positive and
      no hook objects; the purchase is completed and flagged either way. */
  lemma ActivationCreditsIff(b: Book, hooks: Hooks, id: Id, user: User, now: int)
    requires Acts(b, Activate, id)
    ensures var (c, r) := Performed(b, hooks, Activate, id, user, now);
      var amount := b.purchases[id].amount;
      && c.purchases[id].status == Completed && c.purchases[id].tokensCredited
      && (r.success <==> CreditRows(c.ledger.rows, id) == CreditRows(b.ledger.rows, id) + 1)
      && (r.success <==> amount > 0 && hooks(Movement(user, amount, BalanceOf(b.ledger, user) + amount, PurchaseRow, id)))
      && (!r.success ==> c.ledger == b.ledger)
  {
    var amount := b.purchases[id].amount;
    var m := Movement(user, amount, BalanceOf(b.ledger, user) + amount, PurchaseRow, id);
    assert (b.ledger.rows + [m])[..|b.ledger.rows + [m]| - 1] == b.ledger.rows;
  }

  ghost predicate AllPass(hooks: Hooks)
  {
    forall m :: hooks(m)
  }

  /** An operation on this purchase that acts, and credits nothing because the
      amount is refused or a hook objects. */
  predicate Misses(b: Book, hooks: Hooks, op: Op, id: Id)
  {
    && op.kind != Reverse && op.id == id && Acts(b, op.kind, id)
    && !Performed(b, hooks, op.kind, op.id, op.user, op.now).1.success
  }

  /** How many credits of one purchase never reached the ledger. */
  function Missed(b: Book, hooks: Hooks, ops: seq<Op>, id: Id): nat
  {
    if ops == [] then 0
    else
      var front := ops[..|ops| - 1];
      Missed(b, hooks, front, id) + One(Misses(Run(b, hooks, front), hooks, ops[|ops| - 1], id))
  }

  lemma PerformedRows(b: Book, hooks: Hooks, op: Op, about: Id)
    ensures CreditRows(Performed(b, hooks, op.kind, op.id, op.user, op.now).0.ledger.rows, about) + One(Misses(b, hooks, op, about))
         == CreditRows(b.ledger.rows, about) + One(op.kind != Reverse && op.id == about && Acts(b, op.kind, about))
  {
    var rows, rows' := b.ledger.rows, Performed(b, hooks, op.kind, op.id, op.user, op.now).0.ledger.rows;
    if rows' != rows { assert rows'[..|rows'| - 1] == rows; }
  }

  /** Whatever hooks and amounts: each activation or restoration that acts adds one
      credit row or is missed, and nothing else adds one. */
  lemma {:induction false} RunCredits(b: Book, hooks: Hooks, ops: seq<Op>, id: Id)
    ensures CreditRows(Run(b, hooks, ops).ledger.rows, id) + Missed(b, hooks, ops, id)
         == CreditRows(b.ledger.rows, id) + Times(b, hooks, ops, Activate, id) + Times(b, hooks, ops, Restore, id)
  {
    if ops != [] {
      RunCredits(b, hooks, ops[..|ops| - 1], id);
      PerformedRows(Run(b, hooks, ops[..|ops| - 1]), hooks, ops[|ops| - 1], id);
    }
  }

  /** With a positive amount and hooks that let movements pass, no credit is missed. */
  lemma {:induction false} NothingMissed(b: Book, hooks: Hooks, ops: seq<Op>, id: Id)
    requires id in b.purchases && b.purchases[id].amount > 0 && AllPass(hooks)
    ensures Missed(b, hooks, ops, id) == 0
    ensures id in Run(b, hooks, ops).purchases && Run(b, hooks, ops).purchases[id].amount == b.purchases[id].amount
  {
    if ops != [] {
      NothingMissed(b, hooks, ops[..|ops| - 1], id);
    }
  }

  /** For a purchase that began pending and without credits: its credit rows and its
      missed credits exceed the reversals by one exactly while it is completed. No
      replay credits twice, whatever hooks and amounts. */
  lemma CreditsMatchCompletion(b: Book, hooks: Hooks, ops: seq<Op>, id: Id)
    requires id in b.purchases && b.purchases[id].status == Pending && !b.purchases[id].tokensCredited
    requires CreditRows(b.ledger.rows, id) == 0
    ensures id in Run(b, hooks, ops).purchases
    ensures CreditRows(Run(b, hooks, ops).ledger.rows, id) + Missed(b, hooks, ops, id)
         == Times(b, hooks, ops, Reverse, id) + One(Run(b, hooks, ops).purchases[id].status == Completed)
    ensures AllPass(hooks) && b.purchases[id].amount > 0 ==> Missed(b, hooks, ops, id) == 0
  {
    RunCounts(b, hooks, ops, id);
    RunCredits(b, hooks, ops, id);
    if AllPass(hooks) && b.purchases[id].amount > 0 { NothingMissed(b, hooks, ops, id); }
  }

  // ---- Bounds -------------------------------------------------------------------------------

  ghost predicate Sound(b: Book)
  {
    && (forall id :: id in b.purchases ==> b.purchases[id].amount > 0)
    && (forall u :: u in b.ledger.balances ==> b.ledger.balances[u] >= 0)
  }

  /** No run drives a balance below zero. */
  lemma {:induction false} RunKeepsBalancesNonNegative(b: Book, hooks: Hooks, ops: seq<Op>)
    requires Sound(b)
    ensures Sound(Run(b, hooks, ops))
  {
    if ops != [] {
      RunKeepsBalancesNonNegative(b, hooks, ops[..|ops| - 1]);
    }
  }

  /** What the rows about one purchase add up to. */
  function NetFor(rows: seq<Movement>, id: Id): int
  {
    if rows == [] then 0
    else NetFor(rows[..|rows| - 1], id) + if rows[|rows| - 1].reference == id then rows[|rows| - 1].delta else 0
  }

  lemma PerformedNet(b: Book, hooks: Hooks, op: Op, about: Id)
    requires about in b.purchases && b.purchases[about].amount >= 0
    ensures var c := Performed(b, hooks, op.kind, op.id, op.user, op.now).0;
      && about in c.purchases && c.purchases[about].amount == b.purchases[about].amount
      && NetFor(c.ledger.rows, about) >= NetFor(b.ledger.rows, about)
           + (if c.purchases[about].status == b.purchases[about].status || Misses(b, hooks, op, about) then 0
              else if op.kind == Reverse then -b.purchases[about].amount else b.purchases[about].amount)
  {
    var c := Performed(b, hooks, op.kind, op.id, op.user, op.now).0;
    if c.ledger.rows != b.ledger.rows { assert c.ledger.rows[..|c.ledger.rows| - 1] == b.ledger.rows; }
  }

  /** The amount so many times over. */
  function Multiple(amount: int, k: int): int
  {
    amount * k
  }

  lemma MultipleSteps(amount: int, k: int)
    ensures Multiple(amount, k + 1) == Multiple(amount, k) + amount && Multiple(amount, k - 1) == Multiple(amount, k) - amount
  {
  }

  /** Short by no more than what was missed: the rows of a purchase add up to at least
      its amount while it is completed, and to at least nothing otherwise, less its
      amount for every credit that was refused. They can add up to more, because a
      refund debits no more than the balance while a restoration credits the full amount. */
  lemma {:induction false} RunNeverShortchanges(b: Book, hooks: Hooks, ops: seq<Op>, id: Id)
    requires id in b.purchases && b.purchases[id].amount >= 0
    requires NetFor(b.ledger.rows, id) >= Multiple(b.purchases[id].amount, One(b.purchases[id].status == Completed))
    ensures var c := Run(b, hooks, ops);
      && id in c.purchases && c.purchases[id].amount == b.purchases[id].amount
      && NetFor(c.ledger.rows, id) >= Multiple(c.purchases[id].amount, One(c.purchases[id].status == Completed) - Missed(b, hooks, ops, id))
  {
    if ops != [] {
      var op, mid := ops[|ops| - 1], Run(b, hooks, ops[..|ops| - 1]);
      RunNeverShortchanges(b, hooks, ops[..|ops| - 1], id);
      PerformedNet(mid, hooks, op, id);
      var k := One(mid.purchases[id].status == Completed) - Missed(b, hooks, ops[..|ops| - 1], id);
      MultipleSteps(b.purchases[id].amount, k);
      OperationShiftsDue(mid, hooks, op, id);
    }
  }

  /** By how many amounts an operation changes what a purchase's rows are due. */
  lemma OperationShiftsDue(b: Book, hooks: Hooks, op: Op, id: Id)
    requires id in b.purchases
    ensures var c := Performed(b, hooks, op.kind, op.id, op.user, op.now).0;
      && id in c.purchases
      && One(c.purchases[id].status == Completed) - One(b.purchases[id].status == Completed) - One(Misses(b, hooks, op, id))
           == if c.purchases[id].status == b.purchases[id].status || Misses(b, hooks, op, id) then 0
              else if op.kind == Reverse then -1 else 1
  {
  }
}
