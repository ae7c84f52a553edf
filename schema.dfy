/**
 * The rows of the ledger's store (wallets, transactions, categories, budgets,
 * budget items and the budget-item/transaction pivot) and the value of the
 * whole store at one moment.
 */
module Schema {
  import opened Wrappers

  /** Row identifiers. The store hands them out from a counter. */
  type Id = nat

  /** A point in time, in milliseconds since the epoch. */
  type Instant = int

  const HourMillis: int := 3_600_000

  datatype TxType = Income | Expense | Transfer

  datatype Wallet = Wallet(id: Id, name: string, color: string, balance: int, userId: Option<Id>)

  datatype Category = Category(
    id: Id, name: string, color: string, imageUrl: Option<string>, imageVariant: Option<string>)

  /** `amount` is an unbounded integer (a bigint in the store); nothing forces it to be positive. */
  datatype Transaction = Transaction(
    id: Id,
    walletId: Id,
    toWalletId: Option<Id>,
    categoryId: Id,
    txType: TxType,
    amount: int,
    date: Instant,
    remark: Option<string>,
    userId: Option<Id>,
    deletedAt: Option<Instant>)

  /** A budget covers the inclusive range [startAt, endAt] of one wallet. */
  datatype Budget = Budget(id: Id, name: string, walletId: Id, startAt: Instant, endAt: Instant, total: int)

  datatype BudgetItem = BudgetItem(id: Id, budgetId: Id, categoryId: Id, planned: int, actual: int)

  /** "This transaction's amount is counted in this item's actual"; unique per pair. */
  datatype Pivot = Pivot(itemId: Id, txId: Id)

  datatype State = State(
    wallets: map<Id, Wallet>,
    transactions: map<Id, Transaction>,
    categories: map<Id, Category>,
    budgets: map<Id, Budget>,
    items: map<Id, BudgetItem>,
    pivots: set<Pivot>,
    nextId: Id)

  /** The failures the services raise, and the store's "record to update not found". */
  datatype Error =
    | RecordNotFound(table: string)
    | ToWalletRequired
    | DateRequired
    | TransactionNotFound
    | CategoryOverlap(categoryId: Id)
    | BudgetNotFound
    | CategoryExistsInBudget

  /** Every id in use is below the counter, so the counter is always a fresh id. */
  ghost predicate FreshIds(s: State)
  {
    && (forall k :: k in s.wallets ==> k < s.nextId)
    && (forall k :: k in s.transactions ==> k < s.nextId)
    && (forall k :: k in s.categories ==> k < s.nextId)
    && (forall k :: k in s.budgets ==> k < s.nextId)
    && (forall k :: k in s.items ==> k < s.nextId)
    && (forall p :: p in s.pivots ==> p.itemId < s.nextId && p.txId < s.nextId)
  }

  /** Each row is stored under its own id. */
  ghost predicate KeysMatch(s: State)
  {
    && (forall k :: k in s.wallets ==> s.wallets[k].id == k)
    && (forall k :: k in s.transactions ==> s.transactions[k].id == k)
    && (forall k :: k in s.budgets ==> s.budgets[k].id == k)
    && (forall k :: k in s.items ==> s.items[k].id == k)
  }

  /** Inclusive-inclusive intersection of two date ranges. */
  predicate Overlaps(startA: Instant, endA: Instant, startB: Instant, endB: Instant)
  {
    startA <= endB && endA >= startB
  }
}
