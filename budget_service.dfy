/**
 * Budgets and their items: creating a budget with one item per requested
 * category, adding, changing and removing single items, with the rule that
 * two budgets of one wallet whose inclusive date ranges meet must not plan
 * the same category.
 */
module BudgetService {
  import opened Wrappers
  import opened Schema
  import opened Database

  /** One requested category of a new budget. */
  datatype CategoryPlan = CategoryPlan(categoryId: Id, planned: int)

  /** Budget create input; `categories` may be left out. */
  datatype BudgetInput = BudgetInput(
    name: string,
    total: int,
    walletId: Id,
    startAt: Instant,
    endAt: Instant,
    categories: Option<seq<CategoryPlan>>)

  /** Item create input. */
  datatype ItemInput = ItemInput(budgetId: Id, categoryId: Id, planned: int)

  /** Item update input: a field left out keeps its value. */
  datatype ItemPatch = ItemPatch(planned: Option<int>, categoryId: Option<Id>)

  // ---------------------------------------------------------------------------
  // Queries the services run
  // ---------------------------------------------------------------------------

  /** The budgets of `walletId` whose range meets [startAt, endAt]. */
  function OverlappingBudgets(s: State, walletId: Id, startAt: Instant, endAt: Instant): set<Id>
  {
    set b | b in s.budgets && s.budgets[b].walletId == walletId
                           && Overlaps(s.budgets[b].startAt, s.budgets[b].endAt, startAt, endAt)
  }

  /** Budget b already has an item of category c. */
  predicate HasCategory(items: map<Id, BudgetItem>, b: Id, c: Id)
  {
    exists i :: i in items && items[i].budgetId == b && items[i].categoryId == c
  }

  /** Category c is already planned in one of the budgets `over`. */
  predicate Conflicts(s: State, over: set<Id>, c: Id)
  {
    exists b :: b in over && HasCategory(s.items, b, c)
  }

  /** The first requested category that is already planned in one of the budgets `over`. */
  function FirstConflict(s: State, over: set<Id>, cats: seq<CategoryPlan>): (r: Option<Id>)
    ensures r.None? <==> forall k :: 0 <= k < |cats| ==> !Conflicts(s, over, cats[k].categoryId)
    ensures r.Some? ==> exists k :: 0 <= k < |cats| && cats[k].categoryId == r.value && Conflicts(s, over, r.value)
  {
    if |cats| == 0 then None
    else if Conflicts(s, over, cats[0].categoryId) then Some(cats[0].categoryId)
    else
      var r := FirstConflict(s, over, cats[1..]);
      assert forall k :: 1 <= k < |cats| ==> cats[k] == cats[1..][k - 1];
      r
  }

  /** The conflict reported is the one of the earliest conflicting category. */
  lemma {:induction false} FirstConflictAt(s: State, over: set<Id>, cats: seq<CategoryPlan>, k: nat)
    requires k < |cats| && Conflicts(s, over, cats[k].categoryId)
    requires forall j :: 0 <= j < k ==> !Conflicts(s, over, cats[j].categoryId)
    ensures FirstConflict(s, over, cats) == Some(cats[k].categoryId)
  {
    if k > 0 {
      assert !Conflicts(s, over, cats[0].categoryId);
      assert forall j :: 0 <= j < k - 1 ==> cats[1..][j] == cats[j + 1];
      FirstConflictAt(s, over, cats[1..], k - 1);
    }
  }

  // ---------------------------------------------------------------------------
  // Specifications
  // ---------------------------------------------------------------------------

  /** The items a new budget gets: one per requested category, with consecutive fresh ids from `first`. */
  function NewItems(first: Id, budgetId: Id, cats: seq<CategoryPlan>): map<Id, BudgetItem>
  {
    if |cats| == 0 then map[]
    else
      var k := |cats| - 1;
      NewItems(first, budgetId, cats[..k])[first + k := BudgetItem(first + k, budgetId, cats[k].categoryId, cats[k].planned, 0)]
  }

  /** The new items as a list, in request order. */
  function NewItemList(first: Id, budgetId: Id, cats: seq<CategoryPlan>): (r: seq<BudgetItem>)
    ensures |r| == |cats|
    ensures forall k :: 0 <= k < |cats| ==> r[k] == BudgetItem(first + k, budgetId, cats[k].categoryId, cats[k].planned, 0)
  {
    if |cats| == 0 then []
    else
      var k := |cats| - 1;
      NewItemList(first, budgetId, cats[..k]) + [BudgetItem(first + k, budgetId, cats[k].categoryId, cats[k].planned, 0)]
  }

  /** The new items are exactly one per requested category, in order, with nothing spent. */
  lemma {:induction false} NewItemsContents(first: Id, budgetId: Id, cats: seq<CategoryPlan>)
    ensures forall j :: j in NewItems(first, budgetId, cats) <==> first <= j < first + |cats|
    ensures forall k :: 0 <= k < |cats| ==>
      NewItems(first, budgetId, cats)[first + k] == BudgetItem(first + k, budgetId, cats[k].categoryId, cats[k].planned, 0)
  {
    if |cats| > 0 {
      var n := |cats| - 1;
      NewItemsContents(first, budgetId, cats[..n]);
      assert forall k :: 0 <= k < n ==> cats[..n][k] == cats[k];
    }
  }

  /**
   * `create`: with some overlapping budget and some requested category, the
   * first requested category planned in an overlapping budget is rejected;
   * otherwise the budget is created together with its items, and both are
   * returned.
   */
  function CreateBudgetTx(s: State, data: BudgetInput): Result<(State, Budget, seq<BudgetItem>), Error>
  {
    var over := OverlappingBudgets(s, data.walletId, data.startAt, data.endAt);
    var cats := data.categories.GetOr([]);
    if |over| > 0 && |cats| > 0 && FirstConflict(s, over, cats).Some? then
      Failure(CategoryOverlap(FirstConflict(s, over, cats).value))
    else
      var b := Budget(s.nextId, data.name, data.walletId, data.startAt, data.endAt, data.total);
      Success((s.(budgets := s.budgets[b.id := b],
                  items := s.items + NewItems(s.nextId + 1, b.id, cats),
                  nextId := s.nextId + 1 + |cats|), b, NewItemList(s.nextId + 1, b.id, cats)))
  }

  /**
   * `createItem`: the budget must exist; the category must not be planned in
   * another budget of the same wallet whose range meets this one's, nor in
   * this budget itself. The new item starts with nothing spent.
   */
  function CreateItemTx(s: State, body: ItemInput): Result<(State, BudgetItem), Error>
  {
    if body.budgetId !in s.budgets then Failure(BudgetNotFound)
    else
      var b := s.budgets[body.budgetId];
      var over := OverlappingBudgets(s, b.walletId, b.startAt, b.endAt) - {b.id};
      if Conflicts(s, over, body.categoryId) then Failure(CategoryOverlap(body.categoryId))
      else if HasCategory(s.items, body.budgetId, body.categoryId) then Failure(CategoryExistsInBudget)
      else
        var item := BudgetItem(s.nextId, body.budgetId, body.categoryId, body.planned, 0);
        Success((s.(items := s.items[item.id := item], nextId := s.nextId + 1), item))
  }

  /** `updateItem`: overwrites the given fields and checks nothing else. */
  function UpdateItemTx(s: State, id: Id, patch: ItemPatch): Result<(State, BudgetItem), Error>
  {
    if id !in s.items then Failure(RecordNotFound("budgetItem"))
    else
      var item := s.items[id].(planned := patch.planned.GetOr(s.items[id].planned),
                               categoryId := patch.categoryId.GetOr(s.items[id].categoryId));
      Success((s.(items := s.items[id := item]), item))
  }

  /** `removeItem`: the item's pivots and then the item itself, in one atomic block. */
  function RemoveItemTx(s: State, id: Id): Result<(State, BudgetItem), Error>
  {
    if id !in s.items then Failure(RecordNotFound("budgetItem"))
    else
      Success((s.(pivots := (set p | p in s.pivots && p.itemId != id), items := s.items - {id}), s.items[id]))
  }

  // ---------------------------------------------------------------------------
  // The operations on the store
  // ---------------------------------------------------------------------------

  /** The nested overlap check of `create`: every requested category against every overlapping budget. */
  method CheckCategories(prisma: Store, overlapping: set<Id>, cats: seq<CategoryPlan>) returns (r: Option<Id>)
    ensures r == FirstConflict(prisma.Contents(), overlapping, cats)
  {
    ghost var s := prisma.Contents();
    for k := 0 to |cats|
      invariant forall j :: 0 <= j < k ==> !Conflicts(s, overlapping, cats[j].categoryId)
    {
      var pending := overlapping;
      while pending != {}
        invariant pending <= overlapping
        invariant forall b :: b in overlapping - pending ==> !HasCategory(prisma.items, b, cats[k].categoryId)
        decreases pending
      {
        var b :| b in pending;
        if HasCategory(prisma.items, b, cats[k].categoryId) {
          FirstConflictAt(s, overlapping, cats, k);
          return Some(cats[k].categoryId);
        }
        pending := pending - {b};
      }
      assert overlapping - pending == overlapping;
    }
    r := None;
  }

  /**
   * `create`: all of it is committed, or on failure nothing is. On success
   * the budget is returned together with its items.
   */
  method CreateBudget(db: Store, data: BudgetInput) returns (r: Result<(Budget, seq<BudgetItem>), Error>)
    modifies db
    ensures var spec := CreateBudgetTx(old(db.Contents()), data);
      && r.Success? == spec.Success?
      && (spec.Success? ==> db.Contents() == spec.value.0 && r.value == (spec.value.1, spec.value.2))
      && (spec.Failure? ==> db.Contents() == old(db.Contents()) && r.error == spec.error)
  {
    ghost var s0 := db.Contents();
    var prisma := new Store.Begin(db);
    var overlapping := OverlappingBudgets(prisma.Contents(), data.walletId, data.startAt, data.endAt);
    var cats := data.categories.GetOr([]);
    if |overlapping| > 0 && |cats| > 0 {
      var conflict := CheckCategories(prisma, overlapping, cats);
      if conflict.Some? {
        assert CreateBudgetTx(s0, data) == Failure(CategoryOverlap(conflict.value));
        return Failure(CategoryOverlap(conflict.value));
      }
    }
    var id := prisma.NewId();
    var budget := Budget(id, data.name, data.walletId, data.startAt, data.endAt, data.total);
    prisma.budgets := prisma.budgets[id := budget];
    var created := InsertItems(prisma, id, cats);
    ghost var s' := s0.(budgets := s0.budgets[id := budget],
                        items := s0.items + NewItems(s0.nextId + 1, id, cats),
                        nextId := s0.nextId + 1 + |cats|);
    assert prisma.Contents() == s';
    assert CreateBudgetTx(s0, data) == Success((s', budget, created));
    db.Commit(prisma);
    r := Success((budget, created));
  }

  /** The nested create of `create`: one item per requested category, in order. */
  method InsertItems(prisma: Store, budgetId: Id, cats: seq<CategoryPlan>) returns (created: seq<BudgetItem>)
    modifies prisma
    ensures prisma.Contents() == old(prisma.Contents()).(
      items := old(prisma.items) + NewItems(old(prisma.nextId), budgetId, cats),
      nextId := old(prisma.nextId) + |cats|)
    ensures created == NewItemList(old(prisma.nextId), budgetId, cats)
  {
    ghost var s0 := prisma.Contents();
    created := [];
    for k := 0 to |cats|
      invariant prisma.Contents() == s0.(items := s0.items + NewItems(s0.nextId, budgetId, cats[..k]),
                                         nextId := s0.nextId + k)
      invariant created == NewItemList(s0.nextId, budgetId, cats[..k])
    {
      var item := InsertItem(prisma, budgetId, cats, k, s0);
      assert cats[..k + 1][..k] == cats[..k];
      created := created + [item];
    }
    assert cats[..|cats|] == cats;
  }

  /** One round of the nested create: the item of the k-th requested category, under the next id. */
  method InsertItem(prisma: Store, budgetId: Id, cats: seq<CategoryPlan>, k: nat, ghost s0: State)
    returns (item: BudgetItem)
    requires k < |cats|
    requires prisma.Contents() == s0.(items := s0.items + NewItems(s0.nextId, budgetId, cats[..k]), nextId := s0.nextId + k)
    modifies prisma
    ensures prisma.Contents() == s0.(items := s0.items + NewItems(s0.nextId, budgetId, cats[..k + 1]), nextId := s0.nextId + k + 1)
    ensures item == BudgetItem(s0.nextId + k, budgetId, cats[k].categoryId, cats[k].planned, 0)
  {
    var itemId := prisma.NewId();
    item := BudgetItem(itemId, budgetId, cats[k].categoryId, cats[k].planned, 0);
    prisma.items := prisma.items[itemId := item];
    assert cats[..k + 1][..k] == cats[..k];
    ghost var added := NewItems(s0.nextId, budgetId, cats[..k]);
    assert NewItems(s0.nextId, budgetId, cats[..k + 1]) == added[itemId := item];
    UnionUpdate(s0.items, added, itemId, item);
    assert prisma.items == s0.items + NewItems(s0.nextId, budgetId, cats[..k + 1]);
  }

  /** Updating the right operand of a union is updating the union. */
  lemma UnionUpdate<K, V>(a: map<K, V>, b: map<K, V>, x: K, v: V)
    ensures (a + b)[x := v] == a + b[x := v]
  {
  }

  /** `createItem`: three checks, then one insert. */
  method CreateItem(db: Store, body: ItemInput) returns (r: Result<BudgetItem, Error>)
    modifies db
    ensures var spec := CreateItemTx(old(db.Contents()), body);
      && r.Success? == spec.Success?
      && (spec.Success? ==> db.Contents() == spec.value.0 && r.value == spec.value.1)
      && (spec.Failure? ==> db.Contents() == old(db.Contents()) && r.error == spec.error)
  {
    if body.budgetId !in db.budgets {
      return Failure(BudgetNotFound);
    }
    var budget := db.budgets[body.budgetId];
    var overlapping := OverlappingBudgets(db.Contents(), budget.walletId, budget.startAt, budget.endAt) - {budget.id};
    var pending := overlapping;
    while pending != {}
      invariant pending <= overlapping
      invariant forall b :: b in overlapping - pending ==> !HasCategory(db.items, b, body.categoryId)
      decreases pending
    {
      var b :| b in pending;
      if HasCategory(db.items, b, body.categoryId) {
        return Failure(CategoryOverlap(body.categoryId));
      }
      pending := pending - {b};
    }
    assert overlapping - pending == overlapping;
    var duplicate := HasCategory(db.items, body.budgetId, body.categoryId);
    if duplicate {
      return Failure(CategoryExistsInBudget);
    }
    var id := db.NewId();
    var item := BudgetItem(id, body.budgetId, body.categoryId, body.planned, 0);
    db.items := db.items[id := item];
    r := Success(item);
  }

  /** `updateItem`. */
  method UpdateItem(db: Store, id: Id, patch: ItemPatch) returns (r: Result<BudgetItem, Error>)
    modifies db
    ensures var spec := UpdateItemTx(old(db.Contents()), id, patch);
      && r.Success? == spec.Success?
      && (spec.Success? ==> db.Contents() == spec.value.0 && r.value == spec.value.1)
      && (spec.Failure? ==> db.Contents() == old(db.Contents()) && r.error == spec.error)
  {
    if id !in db.items {
      return Failure(RecordNotFound("budgetItem"));
    }
    var item := db.items[id];
    var updated := item.(planned := patch.planned.GetOr(item.planned),
                         categoryId := patch.categoryId.GetOr(item.categoryId));
    db.items := db.items[id := updated];
    r := Success(updated);
  }

  /** `removeItem`: the pivot deletion is rolled back when the item delete fails. */
  method RemoveItem(db: Store, id: Id) returns (r: Result<BudgetItem, Error>)
    modifies db
    ensures var spec := RemoveItemTx(old(db.Contents()), id);
      && r.Success? == spec.Success?
      && (spec.Success? ==> db.Contents() == spec.value.0 && r.value == spec.value.1)
      && (spec.Failure? ==> db.Contents() == old(db.Contents()) && r.error == spec.error)
  {
    var prisma := new Store.Begin(db);
    prisma.pivots := set p | p in prisma.pivots && p.itemId != id;
    if id !in prisma.items {
      return Failure(RecordNotFound("budgetItem"));
    }
    var removed := prisma.items[id];
    prisma.items := prisma.items - {id};
    db.Commit(prisma);
    r := Success(removed);
  }
}
