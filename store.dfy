/**
 * The store as a mutable object: one field per table. A `$transaction` block
 * works on a scratch copy made by `Begin` and is made visible by `Commit`;
 * a block that fails is simply never committed.
 */
module Database {
  import opened Schema

  class Store {
    var wallets: map<Id, Wallet>
    var transactions: map<Id, Transaction>
    var categories: map<Id, Category>
    var budgets: map<Id, Budget>
    var items: map<Id, BudgetItem>
    var pivots: set<Pivot>
    var nextId: Id

    /** The value of the whole store. */
    function Contents(): State
      reads this
    {
      State(wallets, transactions, categories, budgets, items, pivots, nextId)
    }

    /** A store holding the given contents. */
    constructor Open(s: State)
      ensures Contents() == s
    {
      wallets, transactions, categories := s.wallets, s.transactions, s.categories;
      budgets, items, pivots, nextId := s.budgets, s.items, s.pivots, s.nextId;
    }

    /** Opens an atomic block over `db`: the block's client sees db's contents. */
    constructor Begin(db: Store)
      ensures Contents() == db.Contents()
    {
      wallets, transactions, categories := db.wallets, db.transactions, db.categories;
      budgets, items, pivots, nextId := db.budgets, db.items, db.pivots, db.nextId;
    }

    /** Makes every write of a finished atomic block visible at once. */
    method Commit(scope: Store)
      modifies this
      ensures Contents() == old(scope.Contents())
    {
      wallets, transactions, categories := scope.wallets, scope.transactions, scope.categories;
      budgets, items, pivots, nextId := scope.budgets, scope.items, scope.pivots, scope.nextId;
    }

    /** Hands out a fresh id. */
    method NewId() returns (id: Id)
      modifies this
      ensures id == old(nextId) && nextId == id + 1
      ensures Contents() == old(Contents()).(nextId := id + 1)
    {
      id := nextId;
      nextId := nextId + 1;
    }
  }
}
