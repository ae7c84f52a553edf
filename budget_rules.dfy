/**
 * The budget overlap rule and how the budget operations treat it and the
 * ledger: create and createItem keep it (create only for a request without
 * repeated categories), updateItem can break it, removeItem and the
 * transaction writes keep it; under the rule every expense is counted in at
 * most one budget item.
 */
module BudgetRules {
  import opened Wrappers
  import opened Schema
  import opened Sums
  import opened TransactionService
  import opened BudgetService
  import opened LedgerInvariants
  import Reconciliation

  // ---------------------------------------------------------------------------
  // The rule
  // ---------------------------------------------------------------------------

  /** Items i and j plan the same category in budgets of one wallet whose ranges meet. */
  ghost predicate Clash(s: State, i: Id, j: Id)
    requires i in s.items && j in s.items
  {
    var a := s.items[i];
    var b := s.items[j];
    && a.categoryId == b.categoryId
    && a.budgetId in s.budgets && b.budgetId in s.budgets
    && s.budgets[a.budgetId].walletId == s.budgets[b.budgetId].walletId
    && Overlaps(s.budgets[a.budgetId].startAt, s.budgets[a.budgetId].endAt,
                s.budgets[b.budgetId].startAt, s.budgets[b.budgetId].endAt)
  }

  /** No two items clash. */
  ghost predicate Exclusive(s: State)
  {
    forall i, j :: i in s.items && j in s.items && i != j ==> !Clash(s, i, j)
  }

  /** Every item belongs to an existing budget. */
  ghost predicate ItemsBelong(s: State)
  {
    forall i :: i in s.items ==> s.items[i].budgetId in s.budgets
  }

  /** The invariant of the budget tables. */
  ghost predicate BudgetsValid(s: State)
  {
    FreshIds(s) && KeysMatch(s) && ItemsBelong(s) && Exclusive(s)
  }

  /** Under the rule, a transaction is in the scope of at most one budget item. */
  lemma AtMostOneMatch(s: State, t: Transaction)
    requires Exclusive(s)
    ensures forall i, j :: i in FindMatchingBudgetItems(s, t) && j in FindMatchingBudgetItems(s, t) ==> i == j
  {
    var m := FindMatchingBudgetItems(s, t);
    forall i, j | i in m && j in m
      ensures i == j
    {
      if i != j {
        assert InScope(s, i, t) && InScope(s, j, t);
        assert Clash(s, i, j);
      }
    }
  }

  /** Only budgets and the items' budget and category decide the rule. */
  lemma ExclusiveFrame(s: State, s': State)
    requires Exclusive(s)
    requires s'.budgets == s.budgets && s'.items.Keys == s.items.Keys
    requires forall i :: i in s.items ==> s'.items[i] == s.items[i].(actual := s'.items[i].actual)
    ensures Exclusive(s')
  {
    forall i, j | i in s'.items && j in s'.items && i != j
      ensures !Clash(s', i, j)
    {
      assert !Clash(s, i, j);
    }
  }

  // ---------------------------------------------------------------------------
  // create
  // ---------------------------------------------------------------------------

  /**
   * `create` rejects exactly when some requested category is planned in a
   * budget of the same wallet whose range meets the new one; it names the
   * first such category. Without categories, or without an overlapping
   * budget, it never rejects.
   */
  lemma CreateBudgetOutcome(s: State, data: BudgetInput)
    ensures var over := OverlappingBudgets(s, data.walletId, data.startAt, data.endAt);
      var cats := data.categories.GetOr([]);
      && (CreateBudgetTx(s, data).Failure? <==>
            exists k :: 0 <= k < |cats| && Conflicts(s, over, cats[k].categoryId))
      && (CreateBudgetTx(s, data).Failure? ==>
            exists k :: 0 <= k < |cats| && CreateBudgetTx(s, data).error == CategoryOverlap(cats[k].categoryId)
                        && Conflicts(s, over, cats[k].categoryId)
                        && forall j :: 0 <= j < k ==> !Conflicts(s, over, cats[j].categoryId))
      && (|cats| == 0 || |over| == 0 ==> CreateBudgetTx(s, data).Success?)
  {
    var over := OverlappingBudgets(s, data.walletId, data.startAt, data.endAt);
    var cats := data.categories.GetOr([]);
    if exists k :: 0 <= k < |cats| && Conflicts(s, over, cats[k].categoryId) {
      var k := FirstConflicting(s, over, cats);
      FirstConflictAt(s, over, cats, k);
      var i :| i in over && HasCategory(s.items, i, cats[k].categoryId);
    }
  }

  /** The index of the first conflicting category, when there is one. */
  lemma FirstConflicting(s: State, over: set<Id>, cats: seq<CategoryPlan>) returns (k: nat)
    requires exists k :: 0 <= k < |cats| && Conflicts(s, over, cats[k].categoryId)
    ensures k < |cats| && Conflicts(s, over, cats[k].categoryId)
    ensures forall j :: 0 <= j < k ==> !Conflicts(s, over, cats[j].categoryId)
  {
    var n :| 0 <= n < |cats| && Conflicts(s, over, cats[n].categoryId);
    k := 0;
    while !Conflicts(s, over, cats[k].categoryId)
      invariant k <= n
      invariant forall j :: 0 <= j < k ==> !Conflicts(s, over, cats[j].categoryId)
      decreases n - k
    {
      k := k + 1;
    }
  }

  /**
   * A successful `create` adds the budget under a fresh id and exactly one
   * item per requested category, in order, carrying its planned amount and
   * nothing spent, and returns those items in that order; nothing else
   * changes.
   */
  lemma CreateBudgetEffects(s: State, data: BudgetInput)
    requires CreateBudgetTx(s, data).Success?
    ensures var (s', b, created) := CreateBudgetTx(s, data).value;
      var cats := data.categories.GetOr([]);
      && b == Budget(s.nextId, data.name, data.walletId, data.startAt, data.endAt, data.total)
      && s'.budgets == s.budgets[b.id := b]
      && s'.nextId == s.nextId + 1 + |cats|
      && (forall i :: i in s'.items <==> i in s.items || s.nextId + 1 <= i < s.nextId + 1 + |cats|)
      && (forall k :: 0 <= k < |cats| ==>
            s'.items[s.nextId + 1 + k] == BudgetItem(s.nextId + 1 + k, b.id, cats[k].categoryId, cats[k].planned, 0))
      && (forall i :: i in s.items && i <= s.nextId ==> s'.items[i] == s.items[i])
      && s' == s.(budgets := s'.budgets, items := s'.items, nextId := s'.nextId)
      && |created| == |cats|
      && (forall k :: 0 <= k < |cats| ==> created[k] == s'.items[s.nextId + 1 + k])
  {
    var cats := data.categories.GetOr([]);
    var b := Budget(s.nextId, data.name, data.walletId, data.startAt, data.endAt, data.total);
    var added := NewItems(s.nextId + 1, b.id, cats);
    var items := s.items + added;
    var s' := s.(budgets := s.budgets[b.id := b], items := items, nextId := s.nextId + 1 + |cats|);
    var created := NewItemList(s.nextId + 1, b.id, cats);
    assert CreateBudgetTx(s, data) == Success((s', b, created));
    NewItemsContents(s.nextId + 1, b.id, cats);
    forall k | 0 <= k < |cats|
      ensures items[s.nextId + 1 + k] == BudgetItem(s.nextId + 1 + k, b.id, cats[k].categoryId, cats[k].planned, 0)
    {
      assert s.nextId + 1 + k in added;
    }
    forall i | i in s.items && i <= s.nextId
      ensures items[i] == s.items[i]
    {
      assert i !in added;
    }
  }

  /** A new item of a successful `create` clashes with no earlier item. */
  lemma NewItemMeetsNoOldItem(s: State, data: BudgetInput, i: Id, k: nat)
    requires BudgetsValid(s) && CreateBudgetTx(s, data).Success?
    requires i in s.items && k < |data.categories.GetOr([])|
    ensures var s' := CreateBudgetTx(s, data).value.0;
      var j := s.nextId + 1 + k;
      i in s'.items && j in s'.items && !Clash(s', i, j) && !Clash(s', j, i)
  {
    var cats := data.categories.GetOr([]);
    var over := OverlappingBudgets(s, data.walletId, data.startAt, data.endAt);
    var s' := CreateBudgetTx(s, data).value.0;
    var j := s.nextId + 1 + k;
    CreateBudgetEffects(s, data);
    CreateBudgetOutcome(s, data);
    var c := cats[k].categoryId;
    var bi := s.items[i].budgetId;
    assert s'.items[i] == s.items[i];
    assert bi in s.budgets && bi != s.nextId && s'.budgets[bi] == s.budgets[bi];
    assert !Conflicts(s, over, c);
    assert s.items[i].categoryId == c ==> HasCategory(s.items, bi, c);
    assert bi !in over || s.items[i].categoryId != c;
  }

  /** After a successful `create`, ids are fresh, every row sits under its own id and every item is in an existing budget. */
  lemma CreateBudgetItemsBelong(s: State, data: BudgetInput)
    requires BudgetsValid(s) && CreateBudgetTx(s, data).Success?
    ensures var s' := CreateBudgetTx(s, data).value.0;
      FreshIds(s') && KeysMatch(s') && ItemsBelong(s')
  {
    var cats := data.categories.GetOr([]);
    var n := s.nextId;
    var s' := CreateBudgetTx(s, data).value.0;
    CreateBudgetEffects(s, data);
    forall i | i in s'.items
      ensures s'.items[i].id == i && s'.items[i].budgetId in s'.budgets && i < s'.nextId
    {
      if i in s.items {
        assert s'.items[i] == s.items[i];
      } else {
        var k := i - n - 1;
        assert 0 <= k < |cats| && i == n + 1 + k;
        assert s'.items[n + 1 + k] == BudgetItem(n + 1 + k, n, cats[k].categoryId, cats[k].planned, 0);
      }
    }
    assert n < s'.nextId && s'.budgets[n].id == n;
  }

  /** Two new items of a successful `create` from different positions of a request that repeats no category do not clash. */
  lemma NewItemsApart(s: State, data: BudgetInput, k1: nat, k2: nat)
    requires CreateBudgetTx(s, data).Success?
    requires var cats := data.categories.GetOr([]);
      k1 < |cats| && k2 < |cats| && cats[k1].categoryId != cats[k2].categoryId
    ensures var s' := CreateBudgetTx(s, data).value.0;
      var i := s.nextId + 1 + k1;
      var j := s.nextId + 1 + k2;
      i in s'.items && j in s'.items && !Clash(s', i, j)
  {
    var cats := data.categories.GetOr([]);
    var n := s.nextId;
    var s' := CreateBudgetTx(s, data).value.0;
    CreateBudgetEffects(s, data);
    assert s'.items[n + 1 + k1] == BudgetItem(n + 1 + k1, n, cats[k1].categoryId, cats[k1].planned, 0);
    assert s'.items[n + 1 + k2] == BudgetItem(n + 1 + k2, n, cats[k2].categoryId, cats[k2].planned, 0);
  }

  /** The items after a successful `create` are the old ones and one per requested category. */
  lemma CreateBudgetItemKeys(s: State, data: BudgetInput)
    requires CreateBudgetTx(s, data).Success?
    ensures var s' := CreateBudgetTx(s, data).value.0;
      forall i :: i in s'.items <==> i in s.items || s.nextId + 1 <= i < s.nextId + 1 + |data.categories.GetOr([])|
  {
    CreateBudgetEffects(s, data);
  }

  /** Two items that were stored before a successful `create` still do not clash after it. */
  lemma OldItemsApart(s: State, data: BudgetInput, i: Id, j: Id)
    requires BudgetsValid(s)
    requires CreateBudgetTx(s, data).Success?
    requires i in s.items && j in s.items && i != j
    ensures var s' := CreateBudgetTx(s, data).value.0;
      i in s'.items && j in s'.items && !Clash(s', i, j)
  {
    var n := s.nextId;
    var s' := CreateBudgetTx(s, data).value.0;
    CreateBudgetEffects(s, data);
    assert s'.items[i] == s.items[i] && s'.items[j] == s.items[j];
    assert s.items[i].budgetId != n && s.items[j].budgetId != n;
    assert !Clash(s, i, j);
  }

  /** Two items of a successful `create`, for a request that repeats no category, do not clash. */
  lemma CreateBudgetPairApart(s: State, data: BudgetInput, i: Id, j: Id)
    requires BudgetsValid(s)
    requires var cats := data.categories.GetOr([]);
      forall k1, k2 :: 0 <= k1 < |cats| && 0 <= k2 < |cats| && k1 != k2 ==> cats[k1].categoryId != cats[k2].categoryId
    requires CreateBudgetTx(s, data).Success?
    requires var s' := CreateBudgetTx(s, data).value.0;
      i in s'.items && j in s'.items && i != j
    ensures var s' := CreateBudgetTx(s, data).value.0;
      !Clash(s', i, j)
  {
    var n := s.nextId;
    CreateBudgetItemKeys(s, data);
    if i in s.items && j in s.items {
      OldItemsApart(s, data, i, j);
    } else if i in s.items {
      var k := j - (n + 1);
      assert j == n + 1 + k;
      NewItemMeetsNoOldItem(s, data, i, k);
    } else if j in s.items {
      var k := i - (n + 1);
      assert i == n + 1 + k;
      NewItemMeetsNoOldItem(s, data, j, k);
    } else {
      var k1, k2 := i - (n + 1), j - (n + 1);
      assert i == n + 1 + k1 && j == n + 1 + k2;
      NewItemsApart(s, data, k1, k2);
    }
  }

  /** A successful `create` keeps the budget invariant, for a request that repeats no category. */
  lemma CreateBudgetKeepsRule(s: State, data: BudgetInput)
    requires BudgetsValid(s)
    requires var cats := data.categories.GetOr([]);
      forall k1, k2 :: 0 <= k1 < |cats| && 0 <= k2 < |cats| && k1 != k2 ==> cats[k1].categoryId != cats[k2].categoryId
    requires CreateBudgetTx(s, data).Success?
    ensures BudgetsValid(CreateBudgetTx(s, data).value.0)
  {
    var s' := CreateBudgetTx(s, data).value.0;
    CreateBudgetItemsBelong(s, data);
    forall i, j | i in s'.items && j in s'.items && i != j
      ensures !Clash(s', i, j)
    {
      CreateBudgetPairApart(s, data, i, j);
    }
  }

  /**
   * `create` checks only the other budgets: a request that names a category
   * twice gets two items of that category in the one new budget.
   */
  lemma CreateBudgetRepeatedCategory()
    ensures var s := State(map[], map[], map[], map[], map[], {}, 0);
      var data := BudgetInput("groceries", 100, 0, 0, 0, Some([CategoryPlan(5, 40), CategoryPlan(5, 60)]));
      && BudgetsValid(s)
      && CreateBudgetTx(s, data).Success?
      && !Exclusive(CreateBudgetTx(s, data).value.0)
  {
    var s := State(map[], map[], map[], map[], map[], {}, 0);
    var data := BudgetInput("groceries", 100, 0, 0, 0, Some([CategoryPlan(5, 40), CategoryPlan(5, 60)]));
    assert OverlappingBudgets(s, 0, 0, 0) == {};
    var s' := CreateBudgetTx(s, data).value.0;
    NewItemsContents(1, 0, [CategoryPlan(5, 40), CategoryPlan(5, 60)]);
    assert 1 in s'.items && 2 in s'.items && Clash(s', 1, 2);
  }

  // ---------------------------------------------------------------------------
  // createItem
  // ---------------------------------------------------------------------------

  /**
   * Budget o competes with budget b for a category: it is b itself, or
   * another stored budget of b's wallet whose range meets b's.
   */
  ghost predicate Competes(s: State, b: Id, o: Id)
    requires b in s.budgets
  {
    || o == b
    || (&& o in s.budgets
        && s.budgets[o].walletId == s.budgets[b].walletId
        && Overlaps(s.budgets[o].startAt, s.budgets[o].endAt, s.budgets[b].startAt, s.budgets[b].endAt))
  }

  /**
   * `createItem` succeeds exactly when the budget exists and no stored item
   * of the category belongs to a competing budget; a missing budget is
   * reported as such. The item it adds has nothing spent and clashes with no
   * stored item.
   */
  lemma CreateItemOutcome(s: State, body: ItemInput)
    requires FreshIds(s) && KeysMatch(s)
    ensures body.budgetId !in s.budgets ==> CreateItemTx(s, body) == Failure(BudgetNotFound)
    ensures CreateItemTx(s, body).Success? <==>
      && body.budgetId in s.budgets
      && forall i :: i in s.items && s.items[i].categoryId == body.categoryId ==>
           !Competes(s, body.budgetId, s.items[i].budgetId)
    ensures CreateItemTx(s, body).Success? ==>
      var (s', item) := CreateItemTx(s, body).value;
      && item.id !in s.items && item.id in s'.items && s'.items[item.id] == item
      && item.budgetId == body.budgetId && item.categoryId == body.categoryId
      && item.planned == body.planned && item.actual == 0
      && forall i :: i in s.items ==> i in s'.items && !Clash(s', item.id, i)
  {
    if body.budgetId in s.budgets {
      var b := s.budgets[body.budgetId];
      var over := OverlappingBudgets(s, b.walletId, b.startAt, b.endAt) - {b.id};
      var c := body.categoryId;
      if Conflicts(s, over, c) {
        var o :| o in over && HasCategory(s.items, o, c);
        var i :| i in s.items && s.items[i].budgetId == o && s.items[i].categoryId == c;
        assert Competes(s, body.budgetId, s.items[i].budgetId);
      } else if HasCategory(s.items, body.budgetId, c) {
        var i :| i in s.items && s.items[i].budgetId == body.budgetId && s.items[i].categoryId == c;
        assert Competes(s, body.budgetId, s.items[i].budgetId);
      } else {
        CreateItemNoCompetitor(s, body, over);
      }
    }
  }

  /** With no conflict and no item of the category in the budget, no stored item of it competes. */
  lemma CreateItemNoCompetitor(s: State, body: ItemInput, over: set<Id>)
    requires FreshIds(s) && KeysMatch(s) && body.budgetId in s.budgets
    requires over == OverlappingBudgets(s, s.budgets[body.budgetId].walletId,
                                        s.budgets[body.budgetId].startAt, s.budgets[body.budgetId].endAt) - {body.budgetId}
    requires !Conflicts(s, over, body.categoryId) && !HasCategory(s.items, body.budgetId, body.categoryId)
    ensures forall i :: i in s.items && s.items[i].categoryId == body.categoryId ==>
      !Competes(s, body.budgetId, s.items[i].budgetId)
    ensures CreateItemTx(s, body).Success?
    ensures var (s', item) := CreateItemTx(s, body).value;
      forall i :: i in s.items ==> i in s'.items && !Clash(s', item.id, i)
  {
    var b := s.budgets[body.budgetId];
    assert b.id == body.budgetId;
    var c := body.categoryId;
    forall i | i in s.items && s.items[i].categoryId == c
      ensures !Competes(s, body.budgetId, s.items[i].budgetId)
    {
      var o := s.items[i].budgetId;
      assert o != body.budgetId;
      if o in s.budgets && s.budgets[o].walletId == b.walletId
         && Overlaps(s.budgets[o].startAt, s.budgets[o].endAt, b.startAt, b.endAt) {
        assert o in over && HasCategory(s.items, o, c);
      }
    }
    var (s', item) := CreateItemTx(s, body).value;
    forall i | i in s.items
      ensures i in s'.items && !Clash(s', item.id, i)
    {
      assert i != item.id && s'.items[i] == s.items[i];
      assert s.items[i].categoryId == c ==> !Competes(s, body.budgetId, s.items[i].budgetId);
    }
  }

  /** A successful `createItem` keeps the budget invariant. */
  lemma CreateItemKeepsRule(s: State, body: ItemInput)
    requires BudgetsValid(s)
    requires CreateItemTx(s, body).Success?
    ensures BudgetsValid(CreateItemTx(s, body).value.0)
  {
    var b := s.budgets[body.budgetId];
    var over := OverlappingBudgets(s, b.walletId, b.startAt, b.endAt) - {b.id};
    var n := s.nextId;
    var s' := CreateItemTx(s, body).value.0;
    assert n !in s.items;
    forall i, j | i in s'.items && j in s'.items && i != j
      ensures !Clash(s', i, j)
    {
      if i != n && j != n {
        assert !Clash(s, i, j);
      } else {
        var o := if i == n then j else i;
        var bo := s.items[o].budgetId;
        assert s'.items[o] == s.items[o];
        assert !HasCategory(s.items, body.budgetId, body.categoryId);
        assert !Conflicts(s, over, body.categoryId);
        assert s.items[o].categoryId == body.categoryId ==> HasCategory(s.items, bo, body.categoryId);
      }
    }
  }

  // ---------------------------------------------------------------------------
  // updateItem
  // ---------------------------------------------------------------------------

  /**
   * `updateItem` can be undone: writing the item's former plan and category
   * back restores the store exactly, and an empty patch changes nothing.
   */
  lemma UpdateItemUndo(s: State, id: Id, patch: ItemPatch)
    ensures UpdateItemTx(s, id, patch).Failure? <==> id !in s.items
    ensures UpdateItemTx(s, id, patch).Success? ==>
      var before := s.items[id];
      var s' := UpdateItemTx(s, id, patch).value.0;
      UpdateItemTx(s', id, ItemPatch(Some(before.planned), Some(before.categoryId))) == Success((s, before))
    ensures id in s.items ==> UpdateItemTx(s, id, ItemPatch(None, None)) == Success((s, s.items[id]))
  {
    if id in s.items {
      var before := s.items[id];
      var s' := UpdateItemTx(s, id, patch).value.0;
      assert s'.items[id := before] == s.items;
      assert s.items[id := before] == s.items;
    }
  }

  /** `updateItem` keeps the ledger: actuals and pivots are not touched. */
  lemma UpdateItemKeepsLedger(s: State, id: Id, patch: ItemPatch)
    requires Ledger(s) && UpdateItemTx(s, id, patch).Success?
    ensures Ledger(UpdateItemTx(s, id, patch).value.0)
  {
  }

  /**
   * `updateItem` checks no overlap: moving an item to a category planned in
   * an overlapping budget of the same wallet breaks the rule.
   */
  lemma UpdateItemCanBreakRule()
    ensures var b0 := Budget(0, "week one", 9, 10, 20, 100);
      var b1 := Budget(1, "week two", 9, 20, 30, 100);
      var s := State(map[], map[], map[], map[0 := b0, 1 := b1],
                     map[2 := BudgetItem(2, 0, 5, 50, 0), 3 := BudgetItem(3, 1, 6, 50, 0)], {}, 4);
      && BudgetsValid(s)
      && UpdateItemTx(s, 3, ItemPatch(None, Some(5))).Success?
      && !Exclusive(UpdateItemTx(s, 3, ItemPatch(None, Some(5))).value.0)
  {
    var b0 := Budget(0, "week one", 9, 10, 20, 100);
    var b1 := Budget(1, "week two", 9, 20, 30, 100);
    var s := State(map[], map[], map[], map[0 := b0, 1 := b1],
                   map[2 := BudgetItem(2, 0, 5, 50, 0), 3 := BudgetItem(3, 1, 6, 50, 0)], {}, 4);
    forall i, j | i in s.items && j in s.items && i != j
      ensures !Clash(s, i, j)
    {
      assert s.items[i].categoryId != s.items[j].categoryId;
    }
    var s' := UpdateItemTx(s, 3, ItemPatch(None, Some(5))).value.0;
    assert Clash(s', 2, 3);
  }

  // ---------------------------------------------------------------------------
  // removeItem
  // ---------------------------------------------------------------------------

  /**
   * `removeItem` fails only for a missing item. Afterwards nothing names the
   * item any more, every other item is left with its row and the rows
   * counted into it, and no other table changes.
   */
  lemma RemoveItemEffects(s: State, id: Id)
    ensures RemoveItemTx(s, id).Failure? <==> id !in s.items
    ensures RemoveItemTx(s, id).Success? ==>
      var s' := RemoveItemTx(s, id).value.0;
      && id !in s'.items
      && (forall p :: p in s'.pivots ==> p.itemId != id)
      && (forall p :: p in s.pivots && p.itemId != id ==> p in s'.pivots)
      && s'.items.Keys == s.items.Keys - {id}
      && (forall i :: i in s'.items ==> s'.items[i] == s.items[i] && ItemLedger(s', i) == ItemLedger(s, i))
      && s'.wallets == s.wallets && s'.transactions == s.transactions && s'.budgets == s.budgets
      && s'.nextId == s.nextId
  {
    if id in s.items {
      var pivots := set p | p in s.pivots && p.itemId != id;
      var s' := RemoveItemTx(s, id).value.0;
      assert s'.pivots == pivots && s'.transactions == s.transactions && s'.nextId == s.nextId;
      forall i | i in s'.items
        ensures s'.items[i] == s.items[i] && ItemLedger(s', i) == ItemLedger(s, i)
      {
        OtherItemLedger(s, pivots, id, i);
      }
    }
  }

  /** `removeItem` keeps the budget invariant. */
  lemma RemoveItemKeepsRule(s: State, id: Id)
    requires BudgetsValid(s) && RemoveItemTx(s, id).Success?
    ensures BudgetsValid(RemoveItemTx(s, id).value.0)
  {
    var s' := RemoveItemTx(s, id).value.0;
    forall i, j | i in s'.items && j in s'.items && i != j
      ensures !Clash(s', i, j)
    {
      assert !Clash(s, i, j);
    }
  }

  /** `removeItem` keeps the ledger: the remaining items keep their pivots. */
  lemma RemoveItemKeepsLedger(s: State, id: Id)
    requires Ledger(s) && RemoveItemTx(s, id).Success?
    ensures Ledger(RemoveItemTx(s, id).value.0)
  {
    var pivots := set p | p in s.pivots && p.itemId != id;
    var s' := s.(pivots := pivots, items := s.items - {id});
    assert RemoveItemTx(s, id).value.0 == s';
    assert FreshIds(s') && KeysMatch(s') && PivotsWellFormed(s');
    forall i | i in s'.items
      ensures s'.items[i].actual == ItemLedger(s', i)
    {
      OtherItemLedger(s, pivots, id, i);
      assert s'.items[i] == s.items[i];
    }
  }

  /** Dropping the pivots of item `id` leaves the ledger of every other item as it was. */
  lemma OtherItemLedger(s: State, pivots: set<Pivot>, id: Id, i: Id)
    requires pivots == set p | p in s.pivots && p.itemId != id
    requires i != id
    ensures Sum(PivotAmounts(pivots, s.transactions, i), s.nextId) == ItemLedger(s, i)
  {
    var f := PivotAmounts(s.pivots, s.transactions, i);
    var g := PivotAmounts(pivots, s.transactions, i);
    forall k: nat | k < s.nextId
      ensures f(k) == g(k)
    {
      assert Pivot(i, k) in pivots <==> Pivot(i, k) in s.pivots;
    }
    SumAgree(f, g, s.nextId);
  }

  // ---------------------------------------------------------------------------
  // New items and the ledger
  // ---------------------------------------------------------------------------

  /** Adding items with fresh ids and nothing spent keeps the ledger. */
  lemma FreshItemsKeepLedger(s: State, s': State)
    requires Ledger(s)
    requires s'.pivots == s.pivots && s'.transactions == s.transactions
    requires s'.wallets == s.wallets && s'.categories == s.categories
    requires s.nextId <= s'.nextId && s.budgets.Keys <= s'.budgets.Keys
    requires forall b :: b in s.budgets ==> s'.budgets[b] == s.budgets[b]
    requires forall b :: b in s'.budgets ==> s'.budgets[b].id == b && b < s'.nextId
    requires forall i :: i in s.items ==> i in s'.items && s'.items[i] == s.items[i]
    requires forall i :: i in s'.items && i !in s.items ==>
      s.nextId <= i < s'.nextId && s'.items[i].actual == 0 && s'.items[i].id == i
    ensures Ledger(s')
  {
    forall i | i in s'.items
      ensures s'.items[i].actual == ItemLedger(s', i)
    {
      var f := PivotAmounts(s.pivots, s.transactions, i);
      if i in s.items {
        SumExtend(f, s.nextId, s'.nextId);
      } else {
        forall k: nat | k < s'.nextId
          ensures f(k) == 0
        {
          assert Pivot(i, k) !in s.pivots;
        }
        SumZero(f, s'.nextId);
      }
    }
  }

  /** A successful `create` keeps the ledger: its new items count nothing. */
  lemma CreateBudgetKeepsLedger(s: State, data: BudgetInput)
    requires Ledger(s) && CreateBudgetTx(s, data).Success?
    ensures Ledger(CreateBudgetTx(s, data).value.0)
  {
    var cats := data.categories.GetOr([]);
    var n := s.nextId;
    var s' := CreateBudgetTx(s, data).value.0;
    CreateBudgetEffects(s, data);
    forall i | i in s'.items && i !in s.items
      ensures n <= i < s'.nextId && s'.items[i].actual == 0 && s'.items[i].id == i
    {
      var k := i - n - 1;
      assert 0 <= k < |cats| && i == n + 1 + k;
      assert s'.items[n + 1 + k] == BudgetItem(n + 1 + k, n, cats[k].categoryId, cats[k].planned, 0);
    }
    FreshItemsKeepLedger(s, s');
  }

  /** `create` and `createItem` keep the ledger; their new items count nothing. */
  lemma BudgetCreatesKeepLedger(s: State, data: BudgetInput, body: ItemInput)
    requires Ledger(s)
    ensures CreateBudgetTx(s, data).Success? ==> Ledger(CreateBudgetTx(s, data).value.0)
    ensures CreateItemTx(s, body).Success? ==> Ledger(CreateItemTx(s, body).value.0)
  {
    if CreateBudgetTx(s, data).Success? {
      CreateBudgetKeepsLedger(s, data);
    }
    if CreateItemTx(s, body).Success? {
      FreshItemsKeepLedger(s, CreateItemTx(s, body).value.0);
    }
  }

  // ---------------------------------------------------------------------------
  // Transaction writes and the rule
  // ---------------------------------------------------------------------------

  /** Apply only moves actuals and pivots. */
  lemma ContributeKeepsRule(s: State, t: Transaction)
    requires Exclusive(s)
    ensures Exclusive(Contribute(s, t))
  {
    if t.txType == Expense {
      Reconciliation.ContributeKeepsScope(s, t, FindMatchingBudgetItems(s, t), t);
      ExclusiveFrame(s, Contribute(s, t));
    }
  }

  /** Reverse only moves actuals and pivots. */
  lemma WithdrawKeepsRule(s: State, t: Transaction)
    requires Exclusive(s) && Withdraw(s, Some(t)).Success?
    ensures Exclusive(Withdraw(s, Some(t)).value)
  {
    if t.txType == Expense {
      Reconciliation.WithdrawKeepsScope(s, t, ContributedItems(s, t.id), t);
      ExclusiveFrame(s, Withdraw(s, Some(t)).value);
    }
  }

  /** Balance updates touch no budget table. */
  lemma BalancesKeepRule(s: State, s': State)
    requires Exclusive(s) && s' == s.(wallets := s'.wallets)
    ensures Exclusive(s')
  {
    ExclusiveFrame(s, s');
  }

  /** create, update and destroy of transactions keep the rule: they touch no budget and no item's category. */
  lemma TransactionWritesKeepRule(s: State, data: TxInput, userId: Option<Id>, id: Id, now: Instant)
    requires Exclusive(s)
    ensures CreateTx(s, data, userId).Success? ==> Exclusive(CreateTx(s, data, userId).value.0)
    ensures UpdateTx(s, id, data).Success? ==> Exclusive(UpdateTx(s, id, data).value.0)
    ensures DestroyTx(s, id, now).Success? ==> Exclusive(DestroyTx(s, id, now).value)
  {
    if CreateTx(s, data, userId).Success? {
      Reconciliation.CreateEffects(s, data, userId);
      var s' := CreateTx(s, data, userId).value.0;
      var t := CreateTx(s, data, userId).value.1;
      var s2 := s.(wallets := s'.wallets, transactions := s'.transactions, nextId := s'.nextId);
      ExclusiveFrame(s, s2);
      ContributeKeepsRule(s2, t);
    }
    if UpdateTx(s, id, data).Success? {
      var before := s.transactions[id];
      var t := UpdatedRow(before, data, NormalizeDate(data.date.value));
      Reconciliation.ReverseEntryBalances(s, before);
      var s1 := ReverseEntryEffect(s, before).value;
      BalancesKeepRule(s, s1);
      Reconciliation.ReapplyEntryBalances(s1, data, t);
      var s2 := ReapplyEntryEffect(s1, data).value;
      BalancesKeepRule(s1, s2);
      WithdrawKeepsRule(s2, before);
      var s3 := Withdraw(s2, Some(before)).value;
      var s4 := s3.(transactions := s3.transactions[id := t]);
      ExclusiveFrame(s3, s4);
      ContributeKeepsRule(s4, t);
    }
    if DestroyTx(s, id, now).Success? {
      var t := s.transactions[id];
      Reconciliation.ReverseEntryBalances(s, t);
      var s1 := ReverseEntryEffect(s, t).value;
      BalancesKeepRule(s, s1);
      WithdrawKeepsRule(s1, t);
      var s2 := Withdraw(s1, Some(t)).value;
      ExclusiveFrame(s2, s2.(transactions := s2.transactions[id := t.(deletedAt := Some(now))]));
    }
  }
}
