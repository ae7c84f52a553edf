/**
 * The ledger invariants of the reconciliation engine.
 *
 * A budget item's `actual` is maintained incrementally; it is meant to equal
 * the sum of the amounts of the transactions counted into it, and the pivot
 * set says which those are. A wallet's balance is likewise moved by every
 * write; how far it is from the sum of the live rows' effects (its opening
 * balance, since wallet creation is not part of this model) is its drift,
 * which create keeps and which update and destroy keep except where they
 * skip transfers or ignore the deletion mark.
 */
module LedgerInvariants {
  import opened Wrappers
  import opened Schema
  import opened Sums
  import opened TransactionService
  import Reconciliation

  // ---------------------------------------------------------------------------
  // Definitions
  // ---------------------------------------------------------------------------

  /** Term k of an item's ledger: the amount of row k if it is counted into item i. */
  function PivotAmounts(pivots: set<Pivot>, txs: map<Id, Transaction>, i: Id): nat -> int
  {
    k => if k in txs && Pivot(i, k) in pivots then txs[k].amount else 0
  }

  /** The sum of the amounts of the rows counted into item i. */
  function ItemLedger(s: State, i: Id): int
  {
    Sum(PivotAmounts(s.pivots, s.transactions, i), s.nextId)
  }

  /** Every item's actual is the total of the rows counted into it. */
  ghost predicate ActualsMatch(s: State)
  {
    forall i :: i in s.items ==> s.items[i].actual == ItemLedger(s, i)
  }

  /** Every pivot joins an existing item to an existing expense row. */
  ghost predicate PivotsWellFormed(s: State)
  {
    forall p :: p in s.pivots ==>
      && p.itemId in s.items
      && p.txId in s.transactions
      && s.transactions[p.txId].txType == Expense
  }

  /** The invariant every transaction write is meant to keep. */
  ghost predicate Ledger(s: State)
  {
    FreshIds(s) && KeysMatch(s) && PivotsWellFormed(s) && ActualsMatch(s)
  }

  /** The effect on wallet w of a row as long as it is not deleted. */
  function LiveEffect(t: Transaction, w: Id): int
  {
    if t.deletedAt.None? then Effect(t, w) else 0
  }

  /** Term k of a wallet's ledger. */
  function LiveEffects(txs: map<Id, Transaction>, w: Id): nat -> int
  {
    k => if k in txs then LiveEffect(txs[k], w) else 0
  }

  /** The sum of the effects of all live rows on wallet w. */
  function WalletLedger(s: State, w: Id): int
  {
    Sum(LiveEffects(s.transactions, w), s.nextId)
  }

  /** How far wallet w's balance is from its ledger. */
  function Drift(s: State, w: Id): int
    requires w in s.wallets
  {
    s.wallets[w].balance - WalletLedger(s, w)
  }

  // ---------------------------------------------------------------------------
  // The contribution tracker keeps the item ledger
  // ---------------------------------------------------------------------------

  /** Apply keeps pivots well formed and actuals equal to their ledgers, for a stored row. */
  lemma ContributePreserves(s: State, t: Transaction)
    requires t.id in s.transactions && s.transactions[t.id] == t && t.id < s.nextId
    requires PivotsWellFormed(s) && ActualsMatch(s)
    ensures var c := Contribute(s, t);
      PivotsWellFormed(c) && ActualsMatch(c)
  {
    if t.txType == Expense {
      var m := FindMatchingBudgetItems(s, t);
      var c := ContributeTo(s, t, m);
      Reconciliation.ContributeKeepsScope(s, t, m, t);
      forall i | i in c.items
        ensures c.items[i].actual == ItemLedger(c, i)
      {
        var f := PivotAmounts(s.pivots, s.transactions, i);
        var g := PivotAmounts(c.pivots, c.transactions, i);
        forall j: nat | j < s.nextId && j != t.id
          ensures f(j) == g(j)
        {
          assert Pivot(i, j) in c.pivots <==> Pivot(i, j) in s.pivots;
        }
        SumPointUpdate(f, g, s.nextId, t.id);
        assert g(t.id) == if i in m || Pivot(i, t.id) in s.pivots then t.amount else 0;
      }
    }
  }

  /**
   * Reverse of a stored row always succeeds on a well-formed store, keeps the
   * invariants, and leaves no pivot of the row.
   */
  lemma WithdrawPreserves(s: State, t: Transaction)
    requires t.id in s.transactions && s.transactions[t.id] == t && t.id < s.nextId
    requires PivotsWellFormed(s) && ActualsMatch(s)
    ensures Withdraw(s, Some(t)).Success?
    ensures var w := Withdraw(s, Some(t)).value;
      && PivotsWellFormed(w) && ActualsMatch(w)
      && w == s.(items := w.items, pivots := w.pivots)
      && (forall p :: p in w.pivots ==> p.txId != t.id)
      && (forall p :: p in w.pivots ==> p in s.pivots)
  {
    if t.txType == Expense {
      var d := ContributedItems(s, t.id);
      assert d <= s.items.Keys;
      var w := WithdrawFrom(s, t, d);
      Reconciliation.ReverseClearsPivots(s, t);
      Reconciliation.WithdrawKeepsScope(s, t, d, t);
      forall i | i in w.items
        ensures w.items[i].actual == ItemLedger(w, i)
      {
        var f := PivotAmounts(s.pivots, s.transactions, i);
        var g := PivotAmounts(w.pivots, w.transactions, i);
        forall j: nat | j < s.nextId && j != t.id
          ensures f(j) == g(j)
        {
          assert Pivot(i, j) in w.pivots <==> Pivot(i, j) in s.pivots;
        }
        SumPointUpdate(f, g, s.nextId, t.id);
        assert i in d <==> Pivot(i, t.id) in s.pivots;
      }
    } else {
      assert forall p :: p in s.pivots ==> p.txId != t.id;
    }
  }

  /**
   * Writing rows that no pivot mentions, and handing out more ids, keeps the
   * item ledgers and leaves the pivots well formed.
   */
  lemma RowWritePreserves(s: State, s': State)
    requires FreshIds(s) && PivotsWellFormed(s) && ActualsMatch(s)
    requires s'.items == s.items && s'.pivots == s.pivots
    requires s.nextId <= s'.nextId && s.transactions.Keys <= s'.transactions.Keys
    requires forall p :: p in s.pivots ==> s'.transactions[p.txId] == s.transactions[p.txId]
    ensures PivotsWellFormed(s') && ActualsMatch(s')
  {
    forall i | i in s'.items
      ensures s'.items[i].actual == ItemLedger(s', i)
    {
      var f := PivotAmounts(s.pivots, s.transactions, i);
      var g := PivotAmounts(s'.pivots, s'.transactions, i);
      forall j: nat | j < s.nextId
        ensures f(j) == g(j)
      {
        if Pivot(i, j) in s.pivots {
          assert s'.transactions[j] == s.transactions[j];
        }
      }
      SumAgree(f, g, s.nextId);
      forall j: nat | s.nextId <= j < s'.nextId
        ensures g(j) == 0
      {
        assert Pivot(i, j) !in s.pivots;
      }
      SumExtend(g, s.nextId, s'.nextId);
    }
  }

  // ---------------------------------------------------------------------------
  // The three writes keep the ledger invariant
  // ---------------------------------------------------------------------------

  /**
   * Changes that keep every key, every row, every item's id and hand out no pivot
   * beyond the existing ones keep the ids fresh and matching.
   */
  lemma BookkeepingKeepsIds(s: State, s': State)
    requires FreshIds(s) && KeysMatch(s)
    requires s'.nextId == s.nextId && s'.transactions == s.transactions
    requires s'.categories == s.categories && s'.budgets == s.budgets
    requires s'.wallets.Keys == s.wallets.Keys && s'.items.Keys == s.items.Keys
    requires forall w :: w in s.wallets ==> s'.wallets[w].id == s.wallets[w].id
    requires forall i :: i in s.items ==> s'.items[i].id == s.items[i].id
    requires forall p :: p in s'.pivots ==> p in s.pivots
    ensures FreshIds(s') && KeysMatch(s')
  {
  }

  /** The balance updates of every write keep the ids fresh and matching. */
  lemma BalancesKeepIds(s: State, s': State)
    requires FreshIds(s) && KeysMatch(s)
    requires s' == s.(wallets := s'.wallets) && s'.wallets.Keys == s.wallets.Keys
    requires forall w :: w in s.wallets ==> s'.wallets[w] == s.wallets[w].(balance := s'.wallets[w].balance)
    ensures FreshIds(s') && KeysMatch(s')
    ensures PivotsWellFormed(s) ==> PivotsWellFormed(s')
    ensures ActualsMatch(s) ==> ActualsMatch(s')
  {
    BookkeepingKeepsIds(s, s');
    assert forall i :: ItemLedger(s', i) == ItemLedger(s, i);
  }

  /** Apply keeps the ids fresh and matching, for a row whose id has been handed out. */
  lemma ContributeKeepsIds(s: State, t: Transaction)
    requires FreshIds(s) && KeysMatch(s) && t.id < s.nextId
    ensures FreshIds(Contribute(s, t)) && KeysMatch(Contribute(s, t))
  {
    if t.txType == Expense {
      Reconciliation.ContributeKeepsScope(s, t, FindMatchingBudgetItems(s, t), t);
    }
  }

  /** The store after writing row t under its id, which is either taken already or the next one. */
  function WriteRow(s: State, t: Transaction): State
  {
    s.(transactions := s.transactions[t.id := t],
       nextId := if t.id == s.nextId then s.nextId + 1 else s.nextId)
  }

  /**
   * Writing a row no pivot mentions and then applying its contribution keeps
   * the invariant, and leaves the row counted in exactly its scope.
   */
  lemma WriteAndCount(s: State, t: Transaction)
    requires Ledger(s) && t.id <= s.nextId
    requires forall p :: p in s.pivots ==> p.txId != t.id
    ensures Ledger(Contribute(WriteRow(s, t), t))
    ensures var c := Contribute(WriteRow(s, t), t);
      ContributedItems(c, t.id) == FindMatchingBudgetItems(c, t)
  {
    var s2 := WriteRow(s, t);
    RowWritePreserves(s, s2);
    assert FreshIds(s2) && KeysMatch(s2);
    ContributePreserves(s2, t);
    ContributeKeepsIds(s2, t);
    assert ContributedItems(s2, t.id) == {};
    if t.txType == Expense {
      Reconciliation.ApplyCountsScopeOnce(s2, t);
      Reconciliation.ContributeKeepsScope(s2, t, FindMatchingBudgetItems(s2, t), t);
    }
  }

  /** `create` keeps the ledger invariant; afterwards the new row is counted in exactly its scope. */
  lemma CreatePreserves(s: State, data: TxInput, userId: Option<Id>)
    requires Ledger(s)
    requires CreateTx(s, data, userId).Success?
    ensures Ledger(CreateTx(s, data, userId).value.0)
    ensures var r := CreateTx(s, data, userId).value;
      ContributedItems(r.0, r.1.id) == FindMatchingBudgetItems(r.0, r.1)
  {
    var t := NewRow(s.nextId, data, NormalizeDate(data.date.value), userId);
    Reconciliation.EntryEffectBalances(s, data, t);
    var s1 := ApplyEntryEffect(s, data).value;
    BalancesKeepIds(s, s1);
    WriteAndCount(s1, t);
    assert CreateTx(s, data, userId).value == (Contribute(WriteRow(s1, t), t), t);
  }

  /** `update` keeps the ledger invariant; afterwards the row is counted in exactly its new scope. */
  lemma UpdatePreserves(s: State, id: Id, data: TxInput)
    requires Ledger(s)
    requires UpdateTx(s, id, data).Success?
    ensures Ledger(UpdateTx(s, id, data).value.0)
    ensures var r := UpdateTx(s, id, data).value;
      r.1.id == id && ContributedItems(r.0, id) == FindMatchingBudgetItems(r.0, r.1)
  {
    var before := s.transactions[id];
    var t := UpdatedRow(before, data, NormalizeDate(data.date.value));
    Reconciliation.ReverseEntryBalances(s, before);
    var s1 := ReverseEntryEffect(s, before).value;
    BalancesKeepIds(s, s1);
    Reconciliation.ReapplyEntryBalances(s1, data, t);
    var s2 := ReapplyEntryEffect(s1, data).value;
    BalancesKeepIds(s1, s2);
    assert before.id == id && s2.transactions[id] == before;
    WithdrawKeepsLedger(s2, before);
    var s3 := Withdraw(s2, Some(before)).value;
    assert t.id == id && id < s3.nextId;
    WriteAndCount(s3, t);
    assert UpdateTx(s, id, data).value == (Contribute(WriteRow(s3, t), t), t);
  }

  /** `destroy` keeps the ledger invariant and leaves no pivot of the row. */
  lemma DestroyPreserves(s: State, id: Id, now: Instant)
    requires Ledger(s)
    requires DestroyTx(s, id, now).Success?
    ensures Ledger(DestroyTx(s, id, now).value)
    ensures ContributedItems(DestroyTx(s, id, now).value, id) == {}
  {
    var t := s.transactions[id];
    Reconciliation.ReverseEntryBalances(s, t);
    var s1 := ReverseEntryEffect(s, t).value;
    BalancesKeepIds(s, s1);
    WithdrawKeepsLedger(s1, t);
    var s2 := Withdraw(s1, Some(t)).value;
    assert t.id == id && s2.transactions[id] == t;
    MarkDeletedKeepsLedger(s2, id, now);
    var s3 := s2.(transactions := s2.transactions[id := t.(deletedAt := Some(now))]);
    assert DestroyTx(s, id, now).value == s3;
    assert s3.pivots == s2.pivots;
  }

  /** Marking a row with no pivot left deleted keeps the ledger invariant. */
  lemma MarkDeletedKeepsLedger(s: State, id: Id, now: Instant)
    requires Ledger(s) && id in s.transactions
    requires forall p :: p in s.pivots ==> p.txId != id
    ensures Ledger(s.(transactions := s.transactions[id := s.transactions[id].(deletedAt := Some(now))]))
  {
    var s' := s.(transactions := s.transactions[id := s.transactions[id].(deletedAt := Some(now))]);
    RowWritePreserves(s, s');
    assert KeysMatch(s');
    assert FreshIds(s');
  }

  /** On a store that keeps the invariant, reverse keeps it too and leaves no pivot of the row. */
  lemma WithdrawKeepsLedger(s: State, t: Transaction)
    requires Ledger(s) && t.id in s.transactions && s.transactions[t.id] == t
    ensures Withdraw(s, Some(t)).Success?
    ensures var w := Withdraw(s, Some(t)).value;
      && Ledger(w)
      && w == s.(items := w.items, pivots := w.pivots)
      && (forall p :: p in w.pivots ==> p.txId != t.id)
  {
    WithdrawPreserves(s, t);
    var w := Withdraw(s, Some(t)).value;
    if t.txType == Expense {
      Reconciliation.WithdrawKeepsScope(s, t, ContributedItems(s, t.id), t);
    }
    BookkeepingKeepsIds(s, w);
  }

  /** On a store that keeps the invariant, reverse never fails. */
  lemma WithdrawNeverFails(s: State, id: Id)
    requires Ledger(s) && id in s.transactions
    ensures Withdraw(s, Some(s.transactions[id])).Success?
  {
    WithdrawPreserves(s, s.transactions[id]);
  }

  // ---------------------------------------------------------------------------
  // Wallet drift
  // ---------------------------------------------------------------------------

  /** `create` keeps every wallet's drift: the balance moves exactly as the ledger does. */
  lemma CreateKeepsDrift(s: State, data: TxInput, userId: Option<Id>)
    requires FreshIds(s)
    requires CreateTx(s, data, userId).Success?
    ensures var s' := CreateTx(s, data, userId).value.0;
      forall w :: w in s.wallets ==> w in s'.wallets && Drift(s', w) == Drift(s, w)
  {
    Reconciliation.CreateEffects(s, data, userId);
    var s' := CreateTx(s, data, userId).value.0;
    var t := CreateTx(s, data, userId).value.1;
    forall w | w in s.wallets
      ensures w in s'.wallets && Drift(s', w) == Drift(s, w)
    {
      AppendedRowLedger(s.transactions, s'.transactions, t, s.nextId, w);
    }
  }

  /** Appending a live row under the next id moves a wallet's ledger by exactly the row's effect. */
  lemma AppendedRowLedger(txs: map<Id, Transaction>, txs': map<Id, Transaction>, t: Transaction, n: nat, w: Id)
    requires forall k :: k in txs ==> k < n
    requires t.id == n && t.deletedAt.None? && txs' == txs[t.id := t]
    ensures Sum(LiveEffects(txs', w), n + 1) == Sum(LiveEffects(txs, w), n) + Effect(t, w)
  {
    var f := LiveEffects(txs, w);
    var g := LiveEffects(txs', w);
    SumAgree(f, g, n);
    assert g(n) == Effect(t, w);
  }

  /**
   * `update` moves the ledger by the new row's live effect minus the old one's,
   * but the balance only by the non-transfer parts; so the drift is kept for
   * a live row whose old and new kinds are both income or expense, and is
   * off by a transfer's full effect, or by the whole change for a deleted row.
   */
  lemma UpdateDrift(s: State, id: Id, data: TxInput)
    requires FreshIds(s)
    requires UpdateTx(s, id, data).Success?
    ensures var before := s.transactions[id];
      var (s', t) := UpdateTx(s, id, data).value;
      forall w :: w in s.wallets ==>
        && w in s'.wallets
        && Drift(s', w) == Drift(s, w)
             + (ReversibleEffect(t, w) - LiveEffect(t, w))
             - (ReversibleEffect(before, w) - LiveEffect(before, w))
  {
    Reconciliation.UpdateEffects(s, id, data);
    var before := s.transactions[id];
    var s' := UpdateTx(s, id, data).value.0;
    var t := UpdateTx(s, id, data).value.1;
    forall w | w in s.wallets
      ensures Drift(s', w) == Drift(s, w)
             + (ReversibleEffect(t, w) - LiveEffect(t, w))
             - (ReversibleEffect(before, w) - LiveEffect(before, w))
    {
      var f := LiveEffects(s.transactions, w);
      var g := LiveEffects(s'.transactions, w);
      SumPointUpdate(f, g, s.nextId, id);
    }
  }

  /** The case the engine is built for: a live row updated from and to income or expense. */
  lemma UpdateKeepsDrift(s: State, id: Id, data: TxInput)
    requires FreshIds(s)
    requires UpdateTx(s, id, data).Success?
    requires s.transactions[id].deletedAt.None?
    requires s.transactions[id].txType != Transfer && data.txType != Transfer
    ensures var s' := UpdateTx(s, id, data).value.0;
      forall w :: w in s.wallets ==> w in s'.wallets && Drift(s', w) == Drift(s, w)
  {
    UpdateDrift(s, id, data);
    Reconciliation.UpdateEffects(s, id, data);
  }

  /**
   * `destroy` keeps the drift of a live income or expense row; a transfer's
   * balances are not taken back, and an already deleted row is taken back a
   * second time.
   */
  lemma DestroyDrift(s: State, id: Id, now: Instant)
    requires FreshIds(s)
    requires DestroyTx(s, id, now).Success?
    ensures var t := s.transactions[id];
      var s' := DestroyTx(s, id, now).value;
      forall w :: w in s.wallets ==>
        && w in s'.wallets
        && Drift(s', w) == Drift(s, w) - ReversibleEffect(t, w) + LiveEffect(t, w)
  {
    Reconciliation.DestroyEffects(s, id, now);
    var t := s.transactions[id];
    var s' := DestroyTx(s, id, now).value;
    forall w | w in s.wallets
      ensures Drift(s', w) == Drift(s, w) - ReversibleEffect(t, w) + LiveEffect(t, w)
    {
      var f := LiveEffects(s.transactions, w);
      var g := LiveEffects(s'.transactions, w);
      SumPointUpdate(f, g, s.nextId, id);
    }
  }

  /** Destroying a live income or expense row keeps every wallet's drift. */
  lemma DestroyKeepsDrift(s: State, id: Id, now: Instant)
    requires FreshIds(s)
    requires DestroyTx(s, id, now).Success?
    requires s.transactions[id].deletedAt.None? && s.transactions[id].txType != Transfer
    ensures var s' := DestroyTx(s, id, now).value;
      forall w :: w in s.wallets ==> w in s'.wallets && Drift(s', w) == Drift(s, w)
  {
    DestroyDrift(s, id, now);
  }
}
