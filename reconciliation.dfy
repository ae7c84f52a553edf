/**
 * Properties of the reconciliation engine's specification: how the
 * contribution tracker's apply and reverse relate, and what create, update
 * and destroy do to balances, rows and pivots, including the places where the
 * engine deliberately or accidentally does less than a full reversal.
 */
module Reconciliation {
  import opened Wrappers
  import opened Schema
  import opened TransactionService
  import WalletService

  // ---------------------------------------------------------------------------
  // The contribution tracker
  // ---------------------------------------------------------------------------

  /** Apply and reverse only touch actuals and pivots, so the scope of any row is the same afterwards. */
  lemma ContributeKeepsScope(s: State, t: Transaction, done: set<Id>, u: Transaction)
    ensures var c := ContributeTo(s, t, done);
      && c == s.(items := c.items, pivots := c.pivots)
      && c.items.Keys == s.items.Keys
      && (forall i :: i in s.items ==> c.items[i] == s.items[i].(actual := c.items[i].actual))
      && FindMatchingBudgetItems(c, u) == FindMatchingBudgetItems(s, u)
  {
    var c := ContributeTo(s, t, done);
    assert forall i :: i in s.items ==> (InScope(c, i, u) <==> InScope(s, i, u));
  }

  lemma WithdrawKeepsScope(s: State, t: Transaction, done: set<Id>, u: Transaction)
    ensures var w := WithdrawFrom(s, t, done);
      && w == s.(items := w.items, pivots := w.pivots)
      && w.items.Keys == s.items.Keys
      && (forall i :: i in s.items ==> w.items[i] == s.items[i].(actual := w.items[i].actual))
      && FindMatchingBudgetItems(w, u) == FindMatchingBudgetItems(s, u)
  {
    var w := WithdrawFrom(s, t, done);
    assert forall i :: i in s.items ==> (InScope(w, i, u) <==> InScope(s, i, u));
  }

  /** Applying a row's contribution twice gives the same actuals and pivots as applying it once. */
  lemma ApplyIdempotent(s: State, t: Transaction)
    ensures Contribute(Contribute(s, t), t) == Contribute(s, t)
  {
    if t.txType == Expense {
      var m := FindMatchingBudgetItems(s, t);
      var once := ContributeTo(s, t, m);
      ContributeKeepsScope(s, t, m, t);
      var twice := ContributeTo(once, t, m);
      assert forall i :: i in m ==> Pivot(i, t.id) in once.pivots;
      assert twice.items == once.items;
      assert twice.pivots == once.pivots;
    }
  }

  /**
   * After apply, the row is counted in every item of its scope, and the only
   * items whose actual moved are those it was not yet counted in; each moved by
   * exactly the row's amount.
   */
  lemma ApplyCountsScopeOnce(s: State, t: Transaction)
    requires t.txType == Expense
    ensures var c := Contribute(s, t);
      && ContributedItems(c, t.id) == ContributedItems(s, t.id) + FindMatchingBudgetItems(s, t)
      && c.items.Keys == s.items.Keys
      && (forall i :: i in s.items ==>
            c.items[i].actual == s.items[i].actual +
              (if i in FindMatchingBudgetItems(s, t) && i !in ContributedItems(s, t.id) then t.amount else 0))
  {
    var m := FindMatchingBudgetItems(s, t);
    var c := ContributeTo(s, t, m);
    forall i | i in s.items
      ensures (Pivot(i, t.id) in s.pivots) == (i in ContributedItems(s, t.id))
    {
      if Pivot(i, t.id) in s.pivots {
        assert i in ContributedItems(s, t.id);
      }
    }
    assert ContributedItems(c, t.id) == ContributedItems(s, t.id) + m by {
      forall i | i in ContributedItems(c, t.id) ensures i in ContributedItems(s, t.id) + m {
        var p :| p in c.pivots && p.txId == t.id && p.itemId == i;
      }
      forall i | i in m ensures i in ContributedItems(c, t.id) {
        assert Pivot(i, t.id) in c.pivots;
      }
      forall i | i in ContributedItems(s, t.id) ensures i in ContributedItems(c, t.id) {
        var p :| p in s.pivots && p.txId == t.id && p.itemId == i;
        assert p in c.pivots;
      }
    }
  }

  /** Reverse does nothing for a missing or non-expense row. */
  lemma ReverseIgnoresNonExpense(s: State, row: Option<Transaction>)
    requires row.None? || row.value.txType != Expense
    ensures Withdraw(s, row) == Success(s)
  {
  }

  /**
   * A successful reverse leaves no pivot of the row, and takes its amount back
   * from exactly the items it was counted in; it fails only when one of those
   * items no longer exists.
   */
  lemma ReverseClearsPivots(s: State, t: Transaction)
    requires t.txType == Expense
    ensures Withdraw(s, Some(t)).Failure? <==> !(ContributedItems(s, t.id) <= s.items.Keys)
    ensures Withdraw(s, Some(t)).Success? ==>
      var w := Withdraw(s, Some(t)).value;
      && w.pivots == (set p | p in s.pivots && p.txId != t.id)
      && w.items.Keys == s.items.Keys
      && (forall i :: i in s.items ==>
            w.items[i] == s.items[i].(actual := s.items[i].actual - (if i in ContributedItems(s, t.id) then t.amount else 0)))
  {
    var d := ContributedItems(s, t.id);
    if d <= s.items.Keys {
      var w := WithdrawFrom(s, t, d);
      assert forall p :: p in w.pivots ==> p.txId != t.id;
      assert forall p :: p in s.pivots && p.txId == t.id ==> p.itemId in d;
    }
  }

  /**
   * Reverse followed by apply restores actuals and pivots exactly, for a row
   * that is counted in precisely the items of its current scope.
   */
  lemma ReverseThenApplyRestores(s: State, t: Transaction)
    requires t.txType == Expense
    requires ContributedItems(s, t.id) == FindMatchingBudgetItems(s, t)
    ensures Withdraw(s, Some(t)).Success?
    ensures Contribute(Withdraw(s, Some(t)).value, t) == s
  {
    var m := FindMatchingBudgetItems(s, t);
    var w := WithdrawFrom(s, t, m);
    WithdrawKeepsScope(s, t, m, t);
    var c := ContributeTo(w, t, m);
    assert forall i :: i in m ==> Pivot(i, t.id) !in w.pivots;
    assert c.items == s.items by {
      forall i | i in s.items ensures c.items[i] == s.items[i] {
        if i in m {
          assert c.items[i].actual == s.items[i].actual - t.amount + t.amount;
        }
      }
    }
    assert c.pivots == s.pivots by {
      forall i | i in m ensures Pivot(i, t.id) in s.pivots {
        var p :| p in s.pivots && p.txId == t.id && p.itemId == i;
        assert p == Pivot(i, t.id);
      }
    }
  }

  /** For a row not counted anywhere yet, reverse undoes apply. */
  lemma ApplyThenReverseRestores(s: State, t: Transaction)
    requires t.txType == Expense
    requires ContributedItems(s, t.id) == {}
    ensures Withdraw(Contribute(s, t), Some(t)) == Success(s)
  {
    var m := FindMatchingBudgetItems(s, t);
    var c := ContributeTo(s, t, m);
    ApplyCountsScopeOnce(s, t);
    ContributeKeepsScope(s, t, m, t);
    assert ContributedItems(c, t.id) == m;
    var w := WithdrawFrom(c, t, m);
    assert forall i :: i in m ==> Pivot(i, t.id) !in s.pivots;
    assert w.items == s.items by {
      forall i | i in s.items ensures w.items[i] == s.items[i] {
        if i in m {
          assert w.items[i].actual == s.items[i].actual + t.amount - t.amount;
        }
      }
    }
    assert w.pivots == s.pivots;
  }

  // ---------------------------------------------------------------------------
  // Balance updates
  // ---------------------------------------------------------------------------

  /** A row built from the input carries the fields that decide its balance effect. */
  predicate SameEffectFields(t: Transaction, data: TxInput)
  {
    && t.walletId == data.walletId && t.txType == data.txType && t.amount == data.amount
    && (t.txType == Transfer ==> t.toWalletId == ApplyPatch(data.toWalletId, None))
  }

  /**
   * Create's balance updates succeed exactly when the wallets they touch exist
   * (and a transfer names its destination); they move each balance by the new
   * row's signed effect and change nothing else.
   */
  lemma EntryEffectBalances(s: State, data: TxInput, t: Transaction)
    requires SameEffectFields(t, data)
    ensures ApplyEntryEffect(s, data).Success? <==>
      && data.walletId in s.wallets
      && (data.txType == Transfer ==> data.toWalletId.Given? && data.toWalletId.value in s.wallets)
    ensures data.txType == Transfer && !data.toWalletId.Given? ==>
      ApplyEntryEffect(s, data) == Failure(ToWalletRequired)
    ensures ApplyEntryEffect(s, data).Success? ==>
      var s1 := ApplyEntryEffect(s, data).value;
      && s1 == s.(wallets := s1.wallets)
      && s1.wallets.Keys == s.wallets.Keys
      && (forall w :: w in s.wallets ==>
            s1.wallets[w] == s.wallets[w].(balance := s.wallets[w].balance + Effect(t, w)))
  {
    if data.txType != Transfer {
      var amount := if data.txType == Income then data.amount else -data.amount;
      WalletService.IncrementChangesOnlyThatBalance(s, data.walletId, amount);
      if data.walletId in s.wallets {
        var s1 := ApplyEntryEffect(s, data).value;
        assert s1 == WalletService.IncrementBalance(s, data.walletId, amount).value;
        forall w | w in s.wallets
          ensures s1.wallets[w] == s.wallets[w].(balance := s.wallets[w].balance + Effect(t, w))
        {
          assert Effect(t, w) == if w == data.walletId then amount else 0;
        }
      }
    } else if data.toWalletId.Given? && data.walletId in s.wallets {
      var to := data.toWalletId.value;
      var s0 := WalletService.IncrementBalance(s, data.walletId, -data.amount).value;
      WalletService.IncrementChangesOnlyThatBalance(s, data.walletId, -data.amount);
      WalletService.IncrementChangesOnlyThatBalance(s0, to, data.amount);
      if to in s.wallets {
        var s1 := ApplyEntryEffect(s, data).value;
        assert s1 == WalletService.IncrementBalance(s0, to, data.amount).value;
        assert t.toWalletId == Some(to);
        forall w | w in s.wallets
          ensures s1.wallets[w] == s.wallets[w].(balance := s.wallets[w].balance + Effect(t, w))
        {
          assert Effect(t, w) == (if w == data.walletId then -data.amount else 0) + (if w == to then data.amount else 0);
          assert s0.wallets[w].balance == s.wallets[w].balance + (if w == data.walletId then -data.amount else 0);
        }
      }
    } else {
      WalletService.IncrementChangesOnlyThatBalance(s, data.walletId, -data.amount);
    }
  }

  /** Undoing a row's balance effect: income and expense are taken back, a transfer is left as it is. */
  lemma ReverseEntryBalances(s: State, t: Transaction)
    ensures ReverseEntryEffect(s, t).Success? <==> t.txType == Transfer || t.walletId in s.wallets
    ensures ReverseEntryEffect(s, t).Success? ==>
      var s1 := ReverseEntryEffect(s, t).value;
      && s1 == s.(wallets := s1.wallets)
      && s1.wallets.Keys == s.wallets.Keys
      && (forall w :: w in s.wallets ==>
            s1.wallets[w] == s.wallets[w].(balance := s.wallets[w].balance - ReversibleEffect(t, w)))
  {
    WalletService.IncrementChangesOnlyThatBalance(s, t.walletId, if t.txType == Income then -t.amount else t.amount);
  }

  /** Update's balance update for the new values: a transfer is not applied at all. */
  lemma ReapplyEntryBalances(s: State, data: TxInput, t: Transaction)
    requires t.walletId == data.walletId && t.txType == data.txType && t.amount == data.amount
    ensures ReapplyEntryEffect(s, data).Success? <==> data.txType == Transfer || data.walletId in s.wallets
    ensures ReapplyEntryEffect(s, data).Success? ==>
      var s1 := ReapplyEntryEffect(s, data).value;
      && s1 == s.(wallets := s1.wallets)
      && s1.wallets.Keys == s.wallets.Keys
      && (forall w :: w in s.wallets ==>
            s1.wallets[w] == s.wallets[w].(balance := s.wallets[w].balance + ReversibleEffect(t, w)))
  {
    WalletService.IncrementChangesOnlyThatBalance(s, data.walletId, if data.txType == Income then data.amount else -data.amount);
  }

  // ---------------------------------------------------------------------------
  // create
  // ---------------------------------------------------------------------------

  /**
   * `create` succeeds exactly when a date is given and the wallets it updates
   * exist. A transfer without a destination is rejected before any balance
   * update, and a missing date rejects the whole block.
   */
  lemma CreateOutcome(s: State, data: TxInput, userId: Option<Id>)
    ensures CreateTx(s, data, userId).Success? <==>
      && data.date.Some?
      && data.walletId in s.wallets
      && (data.txType == Transfer ==> data.toWalletId.Given? && data.toWalletId.value in s.wallets)
    ensures data.txType == Transfer && !data.toWalletId.Given? ==>
      CreateTx(s, data, userId) == Failure(ToWalletRequired)
    ensures data.date.None? && ApplyEntryEffect(s, data).Success? ==>
      CreateTx(s, data, userId) == Failure(DateRequired)
  {
    EntryEffectBalances(s, data, NewRow(s.nextId, data, 0, userId));
  }

  /**
   * A successful `create` inserts the new row under a fresh id, with the
   * normalized date and no deletion mark, and moves every wallet's balance by
   * that row's signed effect: income adds to its wallet, expense subtracts,
   * a transfer moves the amount from its wallet to its destination.
   */
  lemma CreateEffects(s: State, data: TxInput, userId: Option<Id>)
    requires CreateTx(s, data, userId).Success?
    ensures var s' := CreateTx(s, data, userId).value.0;
      var t := CreateTx(s, data, userId).value.1;
      && t == NewRow(s.nextId, data, NormalizeDate(data.date.value), userId)
      && t.id == s.nextId && t.deletedAt.None? && t.date == data.date.value - 7 * HourMillis
      && s'.nextId == s.nextId + 1
      && s'.transactions == s.transactions[t.id := t]
      && s'.budgets == s.budgets && s'.categories == s.categories
      && s'.wallets.Keys == s.wallets.Keys
      && (forall w :: w in s.wallets ==>
            s'.wallets[w] == s.wallets[w].(balance := s.wallets[w].balance + Effect(t, w)))
      && s' == Contribute(s.(wallets := s'.wallets, transactions := s'.transactions, nextId := s'.nextId), t)
  {
    var t := NewRow(s.nextId, data, NormalizeDate(data.date.value), userId);
    EntryEffectBalances(s, data, t);
    var s1 := ApplyEntryEffect(s, data).value;
    var s2 := s1.(transactions := s1.transactions[t.id := t], nextId := s1.nextId + 1);
    assert CreateTx(s, data, userId) == Success((Contribute(s2, t), t));
    var s' := Contribute(s2, t);
    ContributeKeepsScope(s2, t, FindMatchingBudgetItems(s2, t), t);
    assert s' == s2.(items := s'.items, pivots := s'.pivots);
    assert s2 == s.(wallets := s1.wallets, transactions := s2.transactions, nextId := s2.nextId);
  }

  // ---------------------------------------------------------------------------
  // update
  // ---------------------------------------------------------------------------

  /** `update` of an unknown id fails before anything else. */
  lemma UpdateUnknownId(s: State, id: Id, data: TxInput)
    requires id !in s.transactions
    ensures UpdateTx(s, id, data) == Failure(TransactionNotFound)
  {
  }

  /**
   * `update` without a date fails, so its balance updates do not persist
   * either; once both balance steps went through, the failure is the
   * missing date.
   */
  lemma UpdateMissingDate(s: State, id: Id, data: TxInput)
    requires data.date.None?
    ensures UpdateTx(s, id, data).Failure?
    ensures
      && id in s.transactions
      && ReverseEntryEffect(s, s.transactions[id]).Success?
      && ReapplyEntryEffect(ReverseEntryEffect(s, s.transactions[id]).value, data).Success?
      ==> UpdateTx(s, id, data) == Failure(DateRequired)
  {
  }

  /**
   * A successful `update` overwrites the row in place (keeping its id, owner
   * and deletion mark) and moves each balance by the new row's effect minus
   * the old row's, where a transfer, old or new, counts as no effect at all.
   */
  lemma UpdateEffects(s: State, id: Id, data: TxInput)
    requires UpdateTx(s, id, data).Success?
    ensures var before := s.transactions[id];
      var s' := UpdateTx(s, id, data).value.0;
      var t := UpdateTx(s, id, data).value.1;
      && t == UpdatedRow(before, data, NormalizeDate(data.date.value))
      && t.id == before.id && t.userId == before.userId && t.deletedAt == before.deletedAt
      && s'.transactions == s.transactions[id := t]
      && s'.nextId == s.nextId && s'.budgets == s.budgets && s'.categories == s.categories
      && s'.wallets.Keys == s.wallets.Keys
      && (forall w :: w in s.wallets ==>
            s'.wallets[w] == s.wallets[w].(balance :=
              s.wallets[w].balance - ReversibleEffect(before, w) + ReversibleEffect(t, w)))
  {
    var before := s.transactions[id];
    var t := UpdatedRow(before, data, NormalizeDate(data.date.value));
    ReverseEntryBalances(s, before);
    var s1 := ReverseEntryEffect(s, before).value;
    ReapplyEntryBalances(s1, data, t);
    var s2 := ReapplyEntryEffect(s1, data).value;
    var s3 := Withdraw(s2, Some(before)).value;
    WithdrawKeepsScope(s2, before, ContributedItems(s2, before.id), t);
    assert s3 == s2.(items := s3.items, pivots := s3.pivots);
    var s4 := s3.(transactions := s3.transactions[id := t]);
    assert UpdateTx(s, id, data) == Success((Contribute(s4, t), t));
    var s' := Contribute(s4, t);
    ContributeKeepsScope(s4, t, FindMatchingBudgetItems(s4, t), t);
    assert s' == s4.(items := s'.items, pivots := s'.pivots);
    assert s'.wallets == s2.wallets && s'.transactions == s.transactions[id := t];
    forall w | w in s.wallets
      ensures s'.wallets[w] == s.wallets[w].(balance :=
                s.wallets[w].balance - ReversibleEffect(before, w) + ReversibleEffect(t, w))
    {
      assert s1.wallets[w] == s.wallets[w].(balance := s.wallets[w].balance - ReversibleEffect(before, w));
    }
  }

  // ---------------------------------------------------------------------------
  // destroy
  // ---------------------------------------------------------------------------

  /** `destroy` of an unknown id fails before anything else. */
  lemma DestroyUnknownId(s: State, id: Id, now: Instant)
    requires id !in s.transactions
    ensures DestroyTx(s, id, now) == Failure(TransactionNotFound)
  {
  }

  /**
   * A successful `destroy` keeps the row, marked deleted, takes back its
   * income or expense effect (not a transfer's), and for an expense deletes
   * exactly the row's pivots and takes its amount back from exactly the items
   * it was counted in; nothing else changes.
   */
  lemma DestroyEffects(s: State, id: Id, now: Instant)
    requires DestroyTx(s, id, now).Success?
    ensures var t := s.transactions[id];
      var s' := DestroyTx(s, id, now).value;
      && s'.transactions == s.transactions[id := t.(deletedAt := Some(now))]
      && s'.nextId == s.nextId && s'.budgets == s.budgets && s'.categories == s.categories
      && s'.wallets.Keys == s.wallets.Keys
      && (forall w :: w in s.wallets ==>
            s'.wallets[w] == s.wallets[w].(balance := s.wallets[w].balance - ReversibleEffect(t, w)))
      && (t.txType == Expense ==>
            && s'.pivots == (set p | p in s.pivots && p.txId != t.id)
            && s'.items.Keys == s.items.Keys
            && forall i :: i in s.items ==>
                 s'.items[i] == s.items[i].(actual := s.items[i].actual - (if i in ContributedItems(s, t.id) then t.amount else 0)))
      && (t.txType != Expense ==> s'.pivots == s.pivots && s'.items == s.items)
  {
    var t := s.transactions[id];
    ReverseEntryBalances(s, t);
    var s1 := ReverseEntryEffect(s, t).value;
    if t.txType == Expense {
      ReverseClearsPivots(s1, t);
      WithdrawKeepsScope(s1, t, ContributedItems(s1, t.id), t);
    }
  }

  /**
   * `destroy` never looks at the deletion mark: once a row was destroyed, a
   * second destroy succeeds too and takes its balance effect back again.
   */
  lemma DestroyRepeats(s: State, id: Id, first: Instant, second: Instant)
    requires DestroyTx(s, id, first).Success?
    ensures id in s.transactions
    ensures var s1 := DestroyTx(s, id, first).value;
      && DestroyTx(s1, id, second).Success?
      && var s2 := DestroyTx(s1, id, second).value;
         forall w :: w in s.wallets ==>
           w in s2.wallets && s2.wallets[w].balance == s.wallets[w].balance - 2 * ReversibleEffect(s.transactions[id], w)
  {
    var t := s.transactions[id];
    DestroyEffects(s, id, first);
    var s1 := DestroyTx(s, id, first).value;
    var t1 := s1.transactions[id];
    assert t1 == t.(deletedAt := Some(first));
    DestroyAgain(s1, id, second);
    var s2 := DestroyTx(s1, id, second).value;
    DestroyEffects(s1, id, second);
    forall w | w in s.wallets
      ensures w in s2.wallets && s2.wallets[w].balance == s.wallets[w].balance - 2 * ReversibleEffect(t, w)
    {
      assert ReversibleEffect(t1, w) == ReversibleEffect(t, w);
      assert s1.wallets[w].balance == s.wallets[w].balance - ReversibleEffect(t, w);
    }
  }

  /** A row whose balance effect can be taken back and that has no pivot left can be destroyed. */
  lemma DestroyAgain(s: State, id: Id, now: Instant)
    requires id in s.transactions
    requires s.transactions[id].txType == Transfer || s.transactions[id].walletId in s.wallets
    requires s.transactions[id].txType == Expense ==> forall p :: p in s.pivots ==> p.txId != s.transactions[id].id
    ensures DestroyTx(s, id, now).Success?
  {
    var t := s.transactions[id];
    ReverseEntryBalances(s, t);
    var r := ReverseEntryEffect(s, t).value;
    if t.txType == Expense {
      assert r.pivots == s.pivots;
      assert ContributedItems(r, t.id) == {};
    }
  }
}
