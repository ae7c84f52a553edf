/**
 * The transaction reconciliation engine: creating, updating and deleting a
 * transaction adjusts wallet balances and the budget items' incrementally
 * maintained `actual`, with the pivot set recording which transaction has
 * been counted into which item. Each operation runs in one atomic block.
 */
module TransactionService {
  import opened Wrappers
  import opened Schema
  import opened Database
  import WalletService

  /** An optional, nullable input field: left out, set to null, or given. */
  datatype Patch<T> = Omitted | Cleared | Given(value: T)

  /** Create and update input. `date` is checked by the service itself, so it may be missing. */
  datatype TxInput = TxInput(
    amount: int,
    walletId: Id,
    categoryId: Id,
    txType: TxType,
    date: Option<Instant>,
    toWalletId: Patch<Id>,
    remark: Patch<string>)

  /** Stored dates are the given date moved back seven hours. */
  function NormalizeDate(d: Instant): Instant
  {
    d - 7 * HourMillis
  }

  /** The value a patch leaves in a column that currently holds `current`. */
  function ApplyPatch<T>(p: Patch<T>, current: Option<T>): Option<T>
  {
    match p
    case Omitted => current
    case Cleared => None
    case Given(v) => Some(v)
  }

  // ---------------------------------------------------------------------------
  // Reference definition of what a row does to a wallet
  // ---------------------------------------------------------------------------

  /**
   * The signed effect of a row on wallet `w`: income adds its amount to its
   * wallet, expense takes it away, a transfer takes it from its wallet and
   * adds it to its destination.
   */
  function Effect(t: Transaction, w: Id): int
  {
    (if t.walletId == w then (if t.txType == Income then t.amount else -t.amount) else 0)
    + (if t.txType == Transfer && t.toWalletId == Some(w) then t.amount else 0)
  }

  /** The part of a row's effect that update and destroy take back: transfers are left alone. */
  function ReversibleEffect(t: Transaction, w: Id): int
  {
    if t.txType == Transfer then 0 else Effect(t, w)
  }

  // ---------------------------------------------------------------------------
  // Budget contribution tracker
  // ---------------------------------------------------------------------------

  /** Item `i` lies in the scope of `t`: same category, and a budget of t's wallet whose range holds t's date. */
  predicate InScope(s: State, i: Id, t: Transaction)
    requires i in s.items
  {
    var item := s.items[i];
    && item.categoryId == t.categoryId
    && item.budgetId in s.budgets
    && s.budgets[item.budgetId].walletId == t.walletId
    && s.budgets[item.budgetId].startAt <= t.date <= s.budgets[item.budgetId].endAt
  }

  /** `findmatchingBudgetItems`: nothing for a non-expense, else every item in scope. */
  function FindMatchingBudgetItems(s: State, t: Transaction): (r: set<Id>)
    ensures r <= s.items.Keys
    ensures t.txType != Expense ==> r == {}
    ensures forall i :: i in r <==> t.txType == Expense && i in s.items && InScope(s, i, t)
  {
    if t.txType != Expense then {} else set i | i in s.items && InScope(s, i, t)
  }

  /** The items `t` is currently counted in, according to the pivots. */
  function ContributedItems(s: State, txId: Id): set<Id>
  {
    set p | p in s.pivots && p.txId == txId :: p.itemId
  }

  /** What the contribution loop has done after visiting the items in `done`. */
  function ContributeTo(s: State, t: Transaction, done: set<Id>): State
  {
    s.(items := map i | i in s.items ::
                  if i in done && Pivot(i, t.id) !in s.pivots
                  then s.items[i].(actual := s.items[i].actual + t.amount)
                  else s.items[i],
       pivots := s.pivots + set i | i in done :: Pivot(i, t.id))
  }

  /** `applyContribution`: counts `t` once into every matching item that has no pivot for it yet. */
  function Contribute(s: State, t: Transaction): State
  {
    if t.txType != Expense then s else ContributeTo(s, t, FindMatchingBudgetItems(s, t))
  }

  /** What the reversal loop has done after visiting the pivots of the items in `done`. */
  function WithdrawFrom(s: State, t: Transaction, done: set<Id>): State
  {
    s.(items := map i | i in s.items ::
                  if i in done then s.items[i].(actual := s.items[i].actual - t.amount) else s.items[i],
       pivots := s.pivots - set i | i in done :: Pivot(i, t.id))
  }

  /**
   * `reverseContribution`: nothing for a null or non-expense row; otherwise every
   * pivot of the row takes its amount back from its item and is deleted. A pivot
   * whose item is gone makes the store's update fail.
   */
  function Withdraw(s: State, row: Option<Transaction>): Result<State, Error>
  {
    if row.None? || row.value.txType != Expense then Success(s)
    else if !(ContributedItems(s, row.value.id) <= s.items.Keys) then Failure(RecordNotFound("budgetItem"))
    else Success(WithdrawFrom(s, row.value, ContributedItems(s, row.value.id)))
  }

  // ---------------------------------------------------------------------------
  // The three mutations, as changes of store value
  // ---------------------------------------------------------------------------

  /** The balance updates `create` makes before it writes the row. */
  function ApplyEntryEffect(s: State, data: TxInput): Result<State, Error>
  {
    match data.txType
    case Income => WalletService.IncrementBalance(s, data.walletId, data.amount)
    case Expense => WalletService.IncrementBalance(s, data.walletId, -data.amount)
    case Transfer =>
      if !data.toWalletId.Given? then Failure(ToWalletRequired)
      else
        var s1 :- WalletService.IncrementBalance(s, data.walletId, -data.amount);
        WalletService.IncrementBalance(s1, data.toWalletId.value, data.amount)
  }

  /** The row `create` inserts. */
  function NewRow(id: Id, data: TxInput, date: Instant, userId: Option<Id>): Transaction
  {
    Transaction(id, data.walletId, ApplyPatch(data.toWalletId, None), data.categoryId, data.txType,
                data.amount, date, ApplyPatch(data.remark, None), userId, None)
  }

  /** `create`: balances, then the date check, then the row, then its contribution. */
  function CreateTx(s: State, data: TxInput, userId: Option<Id>): Result<(State, Transaction), Error>
  {
    var s1 :- ApplyEntryEffect(s, data);
    if data.date.None? then Failure(DateRequired)
    else
      var t := NewRow(s1.nextId, data, NormalizeDate(data.date.value), userId);
      var s2 := s1.(transactions := s1.transactions[t.id := t], nextId := s1.nextId + 1);
      Success((Contribute(s2, t), t))
  }

  /** The balance updates `update` and `destroy` make to undo the old row: none for a transfer. */
  function ReverseEntryEffect(s: State, t: Transaction): Result<State, Error>
  {
    match t.txType
    case Income => WalletService.IncrementBalance(s, t.walletId, -t.amount)
    case Expense => WalletService.IncrementBalance(s, t.walletId, t.amount)
    case Transfer => Success(s)
  }

  /** The balance update `update` makes for the new values: none for a transfer. */
  function ReapplyEntryEffect(s: State, data: TxInput): Result<State, Error>
  {
    match data.txType
    case Income => WalletService.IncrementBalance(s, data.walletId, data.amount)
    case Expense => WalletService.IncrementBalance(s, data.walletId, -data.amount)
    case Transfer => Success(s)
  }

  /** The row after `update` wrote the input over it; owner and deletion mark are kept. */
  function UpdatedRow(t: Transaction, data: TxInput, date: Instant): Transaction
  {
    t.(walletId := data.walletId, toWalletId := ApplyPatch(data.toWalletId, t.toWalletId),
       categoryId := data.categoryId, txType := data.txType, amount := data.amount, date := date,
       remark := ApplyPatch(data.remark, t.remark))
  }

  /** `update`. */
  function UpdateTx(s: State, id: Id, data: TxInput): Result<(State, Transaction), Error>
  {
    if id !in s.transactions then Failure(TransactionNotFound)
    else
      var before := s.transactions[id];
      var s1 :- ReverseEntryEffect(s, before);
      var s2 :- ReapplyEntryEffect(s1, data);
      if data.date.None? then Failure(DateRequired)
      else
        var s3 :- Withdraw(s2, Some(before));
        var t := UpdatedRow(before, data, NormalizeDate(data.date.value));
        var s4 := s3.(transactions := s3.transactions[id := t]);
        Success((Contribute(s4, t), t))
  }

  /** `destroy`: a soft delete; `now` is the clock's reading. */
  function DestroyTx(s: State, id: Id, now: Instant): Result<State, Error>
  {
    if id !in s.transactions then Failure(TransactionNotFound)
    else
      var t := s.transactions[id];
      var s1 :- ReverseEntryEffect(s, t);
      var s2 :- Withdraw(s1, Some(t));
      Success(s2.(transactions := s2.transactions[id := t.(deletedAt := Some(now))]))
  }

  // ---------------------------------------------------------------------------
  // The operations on the store
  // ---------------------------------------------------------------------------

  /** The loop of `applyContribution`, on the client of the enclosing block. */
  method ApplyContribution(prisma: Store, trx: Transaction)
    modifies prisma
    ensures prisma.Contents() == Contribute(old(prisma.Contents()), trx)
  {
    if trx.txType != Expense {
      return;
    }
    var budgetItems := FindMatchingBudgetItems(prisma.Contents(), trx);
    ContributeAll(prisma, trx, budgetItems, prisma.Contents());
  }

  /** The loop itself: every item of `budgetItems` is visited once, in any order. */
  method ContributeAll(prisma: Store, trx: Transaction, budgetItems: set<Id>, ghost s0: State)
    requires budgetItems <= s0.items.Keys
    requires prisma.Contents() == s0
    modifies prisma
    ensures prisma.Contents() == ContributeTo(s0, trx, budgetItems)
  {
    var pending := budgetItems;
    ghost var done: set<Id> := {};
    ContributeNone(s0, trx);
    while pending != {}
      invariant done + pending == budgetItems && done !! pending
      invariant prisma.Contents() == ContributeTo(s0, trx, done)
      decreases pending
    {
      var itemId :| itemId in pending;
      ContributeOne(prisma, trx, itemId, s0, done);
      done := done + {itemId};
      pending := pending - {itemId};
    }
    assert done == budgetItems;
  }

  /** Before the loop visits any item, nothing has changed. */
  lemma ContributeNone(s: State, t: Transaction)
    ensures ContributeTo(s, t, {}) == s
  {
    assert ContributeTo(s, t, {}).items == s.items;
    assert ContributeTo(s, t, {}).pivots == s.pivots;
  }

  /**
   * One turn of the contribution loop, on item `itemId` not visited before:
   * the item gains the amount and a pivot, unless the pivot is already there.
   */
  method ContributeOne(prisma: Store, trx: Transaction, itemId: Id, ghost s0: State, ghost done: set<Id>)
    requires itemId in s0.items && itemId !in done
    requires prisma.Contents() == ContributeTo(s0, trx, done)
    modifies prisma
    ensures prisma.Contents() == ContributeTo(s0, trx, done + {itemId})
  {
    ContributeStep(s0, trx, done, itemId);
    var existing := Pivot(itemId, trx.id) in prisma.pivots;
    if !existing {
      var item := prisma.items[itemId];
      prisma.items := prisma.items[itemId := item.(actual := item.actual + trx.amount)];
      prisma.pivots := prisma.pivots + {Pivot(itemId, trx.id)};
    }
  }

  /** One turn of the contribution loop, on an item not visited before. */
  lemma ContributeStep(s: State, t: Transaction, done: set<Id>, i: Id)
    requires i in s.items && i !in done
    ensures var cur := ContributeTo(s, t, done);
      && i in cur.items && cur.items[i] == s.items[i]
      && (Pivot(i, t.id) in cur.pivots <==> Pivot(i, t.id) in s.pivots)
      && (Pivot(i, t.id) in cur.pivots ==> ContributeTo(s, t, done + {i}) == cur)
      && (Pivot(i, t.id) !in cur.pivots ==>
            ContributeTo(s, t, done + {i}) ==
            cur.(items := cur.items[i := cur.items[i].(actual := cur.items[i].actual + t.amount)],
                 pivots := cur.pivots + {Pivot(i, t.id)}))
  {
    var cur := ContributeTo(s, t, done);
    var next := ContributeTo(s, t, done + {i});
    if Pivot(i, t.id) in s.pivots {
      assert next.items == cur.items;
      assert next.pivots == cur.pivots;
    } else {
      assert next.items == cur.items[i := cur.items[i].(actual := cur.items[i].actual + t.amount)];
      assert next.pivots == cur.pivots + {Pivot(i, t.id)};
    }
  }

  /** The loop of `reverseContribution`. On failure the block is rolled back, so the state is left unspecified. */
  method ReverseContribution(prisma: Store, row: Option<Transaction>) returns (r: Result<(), Error>)
    modifies prisma
    ensures var spec := Withdraw(old(prisma.Contents()), row);
      && r.Success? == spec.Success?
      && (spec.Success? ==> prisma.Contents() == spec.value)
      && (spec.Failure? ==> r.error == spec.error)
  {
    if row.None? {
      return Success(());
    }
    var trx := row.value;
    if trx.txType != Expense {
      return Success(());
    }
    ghost var s0 := prisma.Contents();
    var pivots := set p | p in prisma.pivots && p.txId == trx.id;
    ghost var all := ContributedItems(s0, trx.id);
    assert all == ItemsOf(pivots);
    var pending := pivots;
    while pending != {}
      invariant pending <= pivots
      invariant ItemsOf(pivots - pending) <= s0.items.Keys
      invariant prisma.Contents() == WithdrawFrom(s0, trx, ItemsOf(pivots - pending))
      decreases pending
    {
      var p :| p in pending;
      if p.itemId !in prisma.items {
        assert p.itemId in all;
        return Failure(RecordNotFound("budgetItem"));
      }
      WithdrawStep(s0, trx, pivots, pending, p);
      var item := prisma.items[p.itemId];
      prisma.items := prisma.items[p.itemId := item.(actual := item.actual - trx.amount)];
      prisma.pivots := prisma.pivots - {p};
      pending := pending - {p};
    }
    assert pivots - pending == pivots;
    r := Success(());
  }

  /** The items named by a set of pivots. */
  ghost function ItemsOf(ps: set<Pivot>): set<Id>
  {
    set p | p in ps :: p.itemId
  }

  /** One turn of the reversal loop, on a pivot of `t` not visited before. */
  lemma WithdrawStep(s: State, t: Transaction, pivots: set<Pivot>, pending: set<Pivot>, p: Pivot)
    requires pivots == set q | q in s.pivots && q.txId == t.id
    requires pending <= pivots && p in pending
    requires p.itemId in s.items
    ensures var cur := WithdrawFrom(s, t, ItemsOf(pivots - pending));
      && ItemsOf(pivots - (pending - {p})) == ItemsOf(pivots - pending) + {p.itemId}
      && p.itemId in cur.items
      && WithdrawFrom(s, t, ItemsOf(pivots - (pending - {p})))
         == cur.(items := cur.items[p.itemId := cur.items[p.itemId].(actual := cur.items[p.itemId].actual - t.amount)],
                 pivots := cur.pivots - {p})
  {
    var done := ItemsOf(pivots - pending);
    var done' := ItemsOf(pivots - (pending - {p}));
    assert pivots - (pending - {p}) == (pivots - pending) + {p};
    assert done' == done + {p.itemId};
    assert p.itemId !in done;
    var cur := WithdrawFrom(s, t, done);
    var next := WithdrawFrom(s, t, done');
    assert next.items == cur.items[p.itemId := cur.items[p.itemId].(actual := cur.items[p.itemId].actual - t.amount)];
    assert Pivot(p.itemId, t.id) == p;
    assert next.pivots == cur.pivots - {p};
  }

  /** The balance updates of `create`, on the block's client. */
  method ApplyEntryBalances(db: Store, prisma: Store, data: TxInput) returns (r: Result<(), Error>)
    modifies prisma
    ensures var spec := ApplyEntryEffect(old(prisma.Contents()), data);
      && r.Success? == spec.Success?
      && (spec.Success? ==> prisma.Contents() == spec.value)
      && (spec.Failure? ==> r.error == spec.error)
  {
    match data.txType {
      case Income =>
        var w := WalletService.UpdateBalance(db, data.walletId, data.amount, prisma);
        if w.Failure? { return Failure(w.error); }
      case Expense =>
        var w := WalletService.UpdateBalance(db, data.walletId, -data.amount, prisma);
        if w.Failure? { return Failure(w.error); }
      case Transfer =>
        if !data.toWalletId.Given? {
          return Failure(ToWalletRequired);
        }
        var w := WalletService.UpdateBalance(db, data.walletId, -data.amount, prisma);
        if w.Failure? { return Failure(w.error); }
        w := WalletService.UpdateBalance(db, data.toWalletId.value, data.amount, prisma);
        if w.Failure? { return Failure(w.error); }
    }
    r := Success(());
  }

  /** The balance updates `update` and `destroy` make to undo a row: a transfer is left alone. */
  method ReverseEntryBalances(db: Store, prisma: Store, t: Transaction) returns (r: Result<(), Error>)
    modifies prisma
    ensures var spec := ReverseEntryEffect(old(prisma.Contents()), t);
      && r.Success? == spec.Success?
      && (spec.Success? ==> prisma.Contents() == spec.value)
      && (spec.Failure? ==> r.error == spec.error)
  {
    if t.txType == Income {
      var w := WalletService.UpdateBalance(db, t.walletId, -t.amount, prisma);
      if w.Failure? { return Failure(w.error); }
    } else if t.txType == Expense {
      var w := WalletService.UpdateBalance(db, t.walletId, t.amount, prisma);
      if w.Failure? { return Failure(w.error); }
    }
    r := Success(());
  }

  /** The balance updates `update` makes for the new values: a transfer is not applied. */
  method ReapplyEntryBalances(db: Store, prisma: Store, data: TxInput) returns (r: Result<(), Error>)
    modifies prisma
    ensures var spec := ReapplyEntryEffect(old(prisma.Contents()), data);
      && r.Success? == spec.Success?
      && (spec.Success? ==> prisma.Contents() == spec.value)
      && (spec.Failure? ==> r.error == spec.error)
  {
    if data.txType == Income {
      var w := WalletService.UpdateBalance(db, data.walletId, data.amount, prisma);
      if w.Failure? { return Failure(w.error); }
    } else if data.txType == Expense {
      var w := WalletService.UpdateBalance(db, data.walletId, -data.amount, prisma);
      if w.Failure? { return Failure(w.error); }
    }
    r := Success(());
  }

  /** The body of `create`'s atomic block. */
  method CreateInBlock(db: Store, prisma: Store, data: TxInput, userId: Option<Id>)
    returns (r: Result<Transaction, Error>)
    modifies prisma
    ensures var spec := CreateTx(old(prisma.Contents()), data, userId);
      && r.Success? == spec.Success?
      && (spec.Success? ==> prisma.Contents() == spec.value.0 && r.value == spec.value.1)
      && (spec.Failure? ==> r.error == spec.error)
  {
    var balances := ApplyEntryBalances(db, prisma, data);
    if balances.Failure? {
      return Failure(balances.error);
    }
    if data.date.None? {
      return Failure(DateRequired);
    }
    var normalizedDate := NormalizeDate(data.date.value);
    var id := prisma.NewId();
    var newTransaction := NewRow(id, data, normalizedDate, userId);
    prisma.transactions := prisma.transactions[id := newTransaction];
    ApplyContribution(prisma, newTransaction);
    r := Success(newTransaction);
  }

  /** `create`: all of it is committed, or on failure nothing is. */
  method Create(db: Store, data: TxInput, userId: Option<Id>) returns (r: Result<Transaction, Error>)
    modifies db
    ensures var spec := CreateTx(old(db.Contents()), data, userId);
      && r.Success? == spec.Success?
      && (spec.Success? ==> db.Contents() == spec.value.0 && r.value == spec.value.1)
      && (spec.Failure? ==> db.Contents() == old(db.Contents()) && r.error == spec.error)
  {
    var prisma := new Store.Begin(db);
    r := CreateInBlock(db, prisma, data, userId);
    if r.Success? {
      db.Commit(prisma);
    }
  }

  /** The body of `update`'s atomic block. */
  method UpdateInBlock(db: Store, prisma: Store, id: Id, data: TxInput)
    returns (r: Result<Transaction, Error>)
    modifies prisma
    ensures var spec := UpdateTx(old(prisma.Contents()), id, data);
      && r.Success? == spec.Success?
      && (spec.Success? ==> prisma.Contents() == spec.value.0 && r.value == spec.value.1)
      && (spec.Failure? ==> r.error == spec.error)
  {
    if id !in prisma.transactions {
      return Failure(TransactionNotFound);
    }
    var oldTransaction := prisma.transactions[id];
    var undone := ReverseEntryBalances(db, prisma, oldTransaction);
    if undone.Failure? {
      return Failure(undone.error);
    }
    var redone := ReapplyEntryBalances(db, prisma, data);
    if redone.Failure? {
      return Failure(redone.error);
    }
    if data.date.None? {
      return Failure(DateRequired);
    }
    var normalizedDate := NormalizeDate(data.date.value);
    var reversed := ReverseContribution(prisma, Some(oldTransaction));
    if reversed.Failure? {
      return Failure(reversed.error);
    }
    var updatedTransaction := UpdatedRow(prisma.transactions[id], data, normalizedDate);
    prisma.transactions := prisma.transactions[id := updatedTransaction];
    ApplyContribution(prisma, updatedTransaction);
    r := Success(updatedTransaction);
  }

  /** `update`: all of it is committed, or on failure nothing is. */
  method Update(db: Store, id: Id, data: TxInput) returns (r: Result<Transaction, Error>)
    modifies db
    ensures var spec := UpdateTx(old(db.Contents()), id, data);
      && r.Success? == spec.Success?
      && (spec.Success? ==> db.Contents() == spec.value.0 && r.value == spec.value.1)
      && (spec.Failure? ==> db.Contents() == old(db.Contents()) && r.error == spec.error)
  {
    var prisma := new Store.Begin(db);
    r := UpdateInBlock(db, prisma, id, data);
    if r.Success? {
      db.Commit(prisma);
    }
  }

  /** The body of `destroy`'s atomic block; `now` is the clock's reading. */
  method DestroyInBlock(db: Store, prisma: Store, id: Id, now: Instant) returns (r: Result<(), Error>)
    modifies prisma
    ensures var spec := DestroyTx(old(prisma.Contents()), id, now);
      && r.Success? == spec.Success?
      && (spec.Success? ==> prisma.Contents() == spec.value)
      && (spec.Failure? ==> r.error == spec.error)
  {
    if id !in prisma.transactions {
      return Failure(TransactionNotFound);
    }
    var transactionToDelete := prisma.transactions[id];
    var undone := ReverseEntryBalances(db, prisma, transactionToDelete);
    if undone.Failure? {
      return Failure(undone.error);
    }
    var reversed := ReverseContribution(prisma, Some(transactionToDelete));
    if reversed.Failure? {
      return Failure(reversed.error);
    }
    prisma.transactions := prisma.transactions[id := prisma.transactions[id].(deletedAt := Some(now))];
    r := Success(());
  }

  /** `destroy`: all of it is committed, or on failure nothing is. */
  method Destroy(db: Store, id: Id, now: Instant) returns (r: Result<(), Error>)
    modifies db
    ensures var spec := DestroyTx(old(db.Contents()), id, now);
      && r.Success? == spec.Success?
      && (spec.Success? ==> db.Contents() == spec.value)
      && (spec.Failure? ==> db.Contents() == old(db.Contents()) && r.error == spec.error)
  {
    var prisma := new Store.Begin(db);
    r := DestroyInBlock(db, prisma, id, now);
    if r.Success? {
      db.Commit(prisma);
    }
  }
}
