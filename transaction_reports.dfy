/**
 * The read side of the transaction service: the per-day groups of a listed
 * page, the monthly income/expense summary and the per-category overview.
 * Calendar formatting is given as functions, and the rows come from the
 * store in id order (the store gives no order, and no total depends on it).
 */
module TransactionReports {
  import opened Wrappers
  import opened Schema
  import opened Grouping
  import opened Database

  // ---------------------------------------------------------------------------
  // Signed amounts
  // ---------------------------------------------------------------------------

  /** A row's signed amount: income counts positive, expense and transfer negative. */
  function Signed(t: Transaction): int
  {
    if t.txType == Income then t.amount else -t.amount
  }

  /** A row's amount. */
  function Amount(t: Transaction): int
  {
    t.amount
  }

  /** What a row adds to the monthly income. */
  function IncomePart(t: Transaction): int
  {
    if t.txType == Income then t.amount else 0
  }

  /** What a row adds to the monthly expense: transfers count as expense. */
  function ExpensePart(t: Transaction): int
  {
    if t.txType == Expense || t.txType == Transfer then t.amount else 0
  }

  /** Income minus expense is the signed total, over any rows. */
  lemma {:induction false} BalanceIsSignedTotal(rows: seq<Transaction>)
    ensures SumBy(rows, IncomePart) - SumBy(rows, ExpensePart) == SumBy(rows, Signed)
  {
    if |rows| > 0 {
      BalanceIsSignedTotal(rows[..|rows| - 1]);
    }
  }

  // ---------------------------------------------------------------------------
  // Rows out of the store
  // ---------------------------------------------------------------------------

  /**
   * The rows with id below n that satisfy p, in id order. When every row is
   * stored under its own id, their ids strictly increase, so each row is
   * listed once. With n the id counter of a store whose ids are fresh, every
   * stored row that satisfies p is listed (`RowsWhereListsAll`).
   */
  function RowsWhere(txs: map<Id, Transaction>, n: nat, p: Transaction -> bool): (r: seq<Transaction>)
    ensures forall t :: t in r ==> p(t) && t in txs.Values
    ensures forall k :: 0 <= k < n && k in txs && p(txs[k]) ==> txs[k] in r
    ensures (forall k :: k in txs ==> txs[k].id == k) ==>
      && (forall t :: t in r ==> t.id < n)
      && (forall j, k :: 0 <= j < k < |r| ==> r[j].id < r[k].id)
  {
    if n == 0 then []
    else
      var k := n - 1;
      var prev := RowsWhere(txs, k, p);
      if k in txs && p(txs[k]) then
        assert forall j :: 0 <= j < |prev| ==> (prev + [txs[k]])[j] == prev[j];
        prev + [txs[k]]
      else prev
  }

  /** In a store whose ids are all below the counter, every stored row that satisfies p is listed. */
  lemma RowsWhereListsAll(s: State, p: Transaction -> bool)
    requires FreshIds(s)
    ensures forall k :: k in s.transactions && p(s.transactions[k]) ==> s.transactions[k] in RowsWhere(s.transactions, s.nextId, p)
  {
  }

  /**
   * The where clause of `findAll`: live rows, of the user when one is given,
   * and dated within the month only when both the month index and the year
   * are given (month index 0 is January, so it counts as given); the
   * calendar bounds of the month come from `bounds`.
   */
  function FindAllWhere(monthIndex: Option<int>, year: Option<int>, userId: Option<Id>,
                        bounds: (int, int) -> (Instant, Instant)): (p: Transaction -> bool)
    ensures monthIndex.None? || year.None? ==>
      forall t :: p(t) == (t.deletedAt.None? && (userId.Some? ==> t.userId == userId))
    ensures monthIndex.Some? && year.Some? ==>
      var (startDate, endDate) := bounds(year.value, monthIndex.value);
      forall t :: p(t) == (t.deletedAt.None? && (userId.Some? ==> t.userId == userId) && startDate <= t.date <= endDate)
  {
    if monthIndex.Some? && year.Some? then
      var (startDate, endDate) := bounds(year.value, monthIndex.value);
      (t: Transaction) => t.deletedAt.None? && (userId.Some? ==> t.userId == userId) && startDate <= t.date <= endDate
    else
      (t: Transaction) => t.deletedAt.None? && (userId.Some? ==> t.userId == userId)
  }

  /** The where clause of `getMonthlySummary`: live rows of the user dated within the month. */
  function MonthFilter(startDate: Instant, endDate: Instant, userId: Id): Transaction -> bool
  {
    (t: Transaction) => t.deletedAt.None? && startDate <= t.date <= endDate && t.userId == Some(userId)
  }

  /** The where clause of `getOverview`: the same, restricted to one kind of row. */
  function OverviewFilter(startDate: Instant, endDate: Instant, userId: Id, kind: TxType): Transaction -> bool
  {
    (t: Transaction) => t.deletedAt.None? && t.txType == kind && startDate <= t.date <= endDate && t.userId == Some(userId)
  }

  // ---------------------------------------------------------------------------
  // findAll: groups by day
  // ---------------------------------------------------------------------------

  /** One day of a listed page. */
  datatype DayGroup = DayGroup(date: string, total: int, transactions: seq<Transaction>)

  /** The grouping key of a row: its formatted calendar day. */
  function ByDay(dateKey: Instant -> string): Transaction -> string
  {
    (t: Transaction) => dateKey(t.date)
  }

  /** The group of day k: labelled after its first row, holding its rows in order and their signed total. */
  function DayGroupOf(rows: seq<Transaction>, dateKey: Instant -> string, dayLabel: Instant -> string, k: string): DayGroup
    requires Members(rows, ByDay(dateKey), k) != []
  {
    var m := Members(rows, ByDay(dateKey), k);
    DayGroup(dayLabel(m[0].date), SumBy(m, Signed), m)
  }

  /** The total of a day group. */
  function DayTotal(g: DayGroup): int
  {
    g.total
  }

  /** What one more row does to the group of day k. */
  lemma DayGroupSnoc(xs: seq<Transaction>, x: Transaction, dateKey: Instant -> string, dayLabel: Instant -> string, k: string)
    requires Members(xs, ByDay(dateKey), k) != [] || dateKey(x.date) == k
    ensures Members(xs + [x], ByDay(dateKey), k) != []
    ensures DayGroupOf(xs + [x], dateKey, dayLabel, k) ==
      if dateKey(x.date) != k then DayGroupOf(xs, dateKey, dayLabel, k)
      else
        var g := if Members(xs, ByDay(dateKey), k) != [] then DayGroupOf(xs, dateKey, dayLabel, k)
                 else DayGroup(dayLabel(x.date), 0, []);
        g.(total := g.total + Signed(x), transactions := g.transactions + [x])
  {
    var key := ByDay(dateKey);
    assert key(x) == dateKey(x.date);
    SnocGroup(xs, key, Signed, x, k);
    var m := Members(xs, key, k);
    var m' := Members(xs + [x], key, k);
    var after := DayGroupOf(xs + [x], dateKey, dayLabel, k);
    assert after == DayGroup(dayLabel(m'[0].date), SumBy(m', Signed), m');
    if key(x) != k {
      assert m' == m;
    } else if m != [] {
      var before := DayGroupOf(xs, dateKey, dayLabel, k);
      assert before == DayGroup(dayLabel(m[0].date), SumBy(m, Signed), m);
      assert m' == m + [x] && m'[0] == m[0];
      assert SumBy(m', Signed) == SumBy(m, Signed) + Signed(x);
      assert after == before.(total := before.total + Signed(x), transactions := before.transactions + [x]);
    } else {
      assert m' == [x];
      assert SumBy(m', Signed) == 0 + Signed(x);
      assert after == DayGroup(dayLabel(x.date), 0 + Signed(x), [] + [x]);
    }
  }

  /** The loop invariant of `GroupByDay` after the rows xs. */
  ghost predicate DaysSoFar(xs: seq<Transaction>, dateKey: Instant -> string, dayLabel: Instant -> string,
                            acc: map<string, DayGroup>, order: seq<string>)
  {
    && order == Keys(xs, ByDay(dateKey))
    && (forall k :: k in acc <==> k in order)
    && (forall k :: k in acc ==>
          Members(xs, ByDay(dateKey), k) != [] && acc[k] == DayGroupOf(xs, dateKey, dayLabel, k))
  }

  /** One step of the `findAll` grouping keeps the group of each day it holds. */
  lemma DayEntryStep(xs: seq<Transaction>, x: Transaction, dateKey: Instant -> string, dayLabel: Instant -> string,
                     acc: map<string, DayGroup>, g: DayGroup, total: int, acc': map<string, DayGroup>, k: string)
    requires k in acc ==> Members(xs, ByDay(dateKey), k) != [] && acc[k] == DayGroupOf(xs, dateKey, dayLabel, k)
    requires dateKey(x.date) in acc <==> Members(xs, ByDay(dateKey), dateKey(x.date)) != []
    requires var day := dateKey(x.date);
      day in acc ==> Members(xs, ByDay(dateKey), day) != [] && acc[day] == DayGroupOf(xs, dateKey, dayLabel, day)
    requires g == if dateKey(x.date) in acc then acc[dateKey(x.date)] else DayGroup(dayLabel(x.date), 0, [])
    requires total == g.total + Signed(x)
    requires acc' == acc[dateKey(x.date) := DayGroup(g.date, total, g.transactions + [x])]
    requires k in acc'
    ensures Members(xs + [x], ByDay(dateKey), k) != [] && acc'[k] == DayGroupOf(xs + [x], dateKey, dayLabel, k)
  {
    DayGroupSnoc(xs, x, dateKey, dayLabel, k);
  }

  /** One step of the `findAll` grouping keeps the group of every day the map holds. */
  lemma DayEntriesStep(xs: seq<Transaction>, x: Transaction, dateKey: Instant -> string, dayLabel: Instant -> string,
                       acc: map<string, DayGroup>, order: seq<string>, g: DayGroup, total: int,
                       acc': map<string, DayGroup>)
    requires DaysSoFar(xs, dateKey, dayLabel, acc, order)
    requires g == if dateKey(x.date) in acc then acc[dateKey(x.date)] else DayGroup(dayLabel(x.date), 0, [])
    requires total == g.total + Signed(x)
    requires acc' == acc[dateKey(x.date) := DayGroup(g.date, total, g.transactions + [x])]
    ensures forall k :: k in acc' ==>
      Members(xs + [x], ByDay(dateKey), k) != [] && acc'[k] == DayGroupOf(xs + [x], dateKey, dayLabel, k)
  {
    var key := ByDay(dateKey);
    var day := dateKey(x.date);
    assert key(x) == day;
    KeysHaveMembers(xs, key, day);
    assert day in acc <==> Members(xs, key, day) != [];
    forall k | k in acc'
      ensures Members(xs + [x], key, k) != [] && acc'[k] == DayGroupOf(xs + [x], dateKey, dayLabel, k)
    {
      DayEntryStep(xs, x, dateKey, dayLabel, acc, g, total, acc', k);
    }
  }

  /** One step of the `findAll` grouping keeps its invariant. */
  lemma DayStep(xs: seq<Transaction>, x: Transaction, dateKey: Instant -> string, dayLabel: Instant -> string,
                acc: map<string, DayGroup>, order: seq<string>, g: DayGroup, total: int,
                acc': map<string, DayGroup>, order': seq<string>)
    requires DaysSoFar(xs, dateKey, dayLabel, acc, order)
    requires g == if dateKey(x.date) in acc then acc[dateKey(x.date)] else DayGroup(dayLabel(x.date), 0, [])
    requires total == g.total + Signed(x)
    requires order' == if dateKey(x.date) in acc then order else order + [dateKey(x.date)]
    requires acc' == acc[dateKey(x.date) := DayGroup(g.date, total, g.transactions + [x])]
    ensures DaysSoFar(xs + [x], dateKey, dayLabel, acc', order')
  {
    var key := ByDay(dateKey);
    assert key(x) == dateKey(x.date);
    KeysSnoc(xs, key, x);
    assert order' == Keys(xs + [x], key);
    DayEntriesStep(xs, x, dateKey, dayLabel, acc, order, g, total, acc');
  }

  /** Listing the groups of the finished invariant in key order gives the page's day groups and their totals. */
  lemma DaysListed(rows: seq<Transaction>, dateKey: Instant -> string, dayLabel: Instant -> string,
                   acc: map<string, DayGroup>, order: seq<string>, groups: seq<DayGroup>)
    requires DaysSoFar(rows, dateKey, dayLabel, acc, order)
    requires |groups| == |order| && forall n :: 0 <= n < |order| ==> groups[n] == acc[order[n]]
    ensures var ks := Keys(rows, ByDay(dateKey));
      && |groups| == |ks|
      && forall n :: 0 <= n < |groups| ==>
           Members(rows, ByDay(dateKey), ks[n]) != [] && groups[n] == DayGroupOf(rows, dateKey, dayLabel, ks[n])
    ensures SumBy(groups, DayTotal) == SumBy(rows, Signed)
  {
    var key := ByDay(dateKey);
    assert forall n :: 0 <= n < |order| ==> order[n] in acc;
    SumOfGroups(order, rows, key, Signed, groups, DayTotal);
    PartitionSum(rows, key, Signed);
  }

  /** The reducer of the `findAll` grouping: files one more row under its day, opening the day if new. */
  method AddToDay(ghost xs: seq<Transaction>, trx: Transaction, dateKey: Instant -> string, dayLabel: Instant -> string,
                  acc: map<string, DayGroup>, order: seq<string>)
    returns (acc': map<string, DayGroup>, order': seq<string>)
    requires DaysSoFar(xs, dateKey, dayLabel, acc, order)
    ensures DaysSoFar(xs + [trx], dateKey, dayLabel, acc', order')
  {
    var day := dateKey(trx.date);
    var g := if day in acc then acc[day] else DayGroup(dayLabel(trx.date), 0, []);
    order' := order;
    if day !in acc {
      order' := order + [day];
    }
    var total := g.total;
    if trx.txType == Expense || trx.txType == Transfer {
      total := total - trx.amount;
    } else if trx.txType == Income {
      total := total + trx.amount;
    }
    acc' := acc[day := DayGroup(g.date, total, g.transactions + [trx])];
    DayStep(xs, trx, dateKey, dayLabel, acc, order, g, total, acc', order');
  }

  /**
   * The grouping in `findAll`: one group per day, in the order the days first
   * appear in the page, each with its rows and their signed total; the day
   * totals add up to the signed total of the page.
   */
  method GroupByDay(rows: seq<Transaction>, dateKey: Instant -> string, dayLabel: Instant -> string)
    returns (groups: seq<DayGroup>)
    ensures var ks := Keys(rows, ByDay(dateKey));
      && |groups| == |ks|
      && forall n :: 0 <= n < |groups| ==>
           Members(rows, ByDay(dateKey), ks[n]) != [] && groups[n] == DayGroupOf(rows, dateKey, dayLabel, ks[n])
    ensures SumBy(groups, DayTotal) == SumBy(rows, Signed)
  {
    var acc: map<string, DayGroup> := map[];
    var order: seq<string> := [];
    for i := 0 to |rows|
      invariant DaysSoFar(rows[..i], dateKey, dayLabel, acc, order)
    {
      acc, order := AddToDay(rows[..i], rows[i], dateKey, dayLabel, acc, order);
      PrefixSnoc(rows, i);
    }
    assert rows[..|rows|] == rows;
    groups := seq(|order|, n requires 0 <= n < |order| => acc[order[n]]);
    DaysListed(rows, dateKey, dayLabel, acc, order, groups);
  }

  // ---------------------------------------------------------------------------
  // getMonthlySummary
  // ---------------------------------------------------------------------------

  /** The monthly figures. */
  datatype Summary = Summary(balance: int, income: int, expense: int)

  /**
   * `getMonthlySummary`: income and expense (transfers included) of the
   * user's live rows of the month, and their difference, which is the
   * rows' signed total. Under `FreshIds` those rows are every matching
   * stored row (`RowsWhereListsAll`).
   */
  method MonthlySummary(db: Store, startDate: Instant, endDate: Instant, userId: Id) returns (r: Summary)
    ensures var rows := RowsWhere(db.transactions, db.nextId, MonthFilter(startDate, endDate, userId));
      && r.income == SumBy(rows, IncomePart)
      && r.expense == SumBy(rows, ExpensePart)
      && r.balance == r.income - r.expense
      && r.balance == SumBy(rows, Signed)
  {
    var transactions := RowsWhere(db.transactions, db.nextId, MonthFilter(startDate, endDate, userId));
    var totalIncome := 0;
    var totalExpense := 0;
    for i := 0 to |transactions|
      invariant totalIncome == SumBy(transactions[..i], IncomePart)
      invariant totalExpense == SumBy(transactions[..i], ExpensePart)
    {
      var trx := transactions[i];
      assert transactions[..i + 1][..i] == transactions[..i];
      if trx.txType == Income {
        totalIncome := totalIncome + trx.amount;
      } else if trx.txType == Expense || trx.txType == Transfer {
        totalExpense := totalExpense + trx.amount;
      }
    }
    assert transactions[..|transactions|] == transactions;
    BalanceIsSignedTotal(transactions);
    r := Summary(totalIncome - totalExpense, totalIncome, totalExpense);
  }

  // ---------------------------------------------------------------------------
  // getOverview
  // ---------------------------------------------------------------------------

  /** One category of the overview. */
  datatype CategoryTotal = CategoryTotal(
    id: Id, name: string, color: string, imageUrl: Option<string>, total: int, imageVariant: string)

  /** The grouping key of a row: its category. */
  function ByCategory(): Transaction -> Id
  {
    (t: Transaction) => t.categoryId
  }

  /** JavaScript's `value || fallback` on an optional string: an empty or missing value falls back. */
  function OrElse(value: Option<string>, fallback: string): (r: string)
    ensures value.Some? && value.value != "" ==> r == value.value
    ensures value.None? || value.value == "" ==> r == fallback
  {
    if value.Some? && value.value != "" then value.value else fallback
  }

  /** The display fields of category c, with the defaults for a missing category or empty fields. */
  function CategoryTotalOf(categories: map<Id, Category>, rows: seq<Transaction>, c: Id): CategoryTotal
  {
    var cat := if c in categories then Some(categories[c]) else None;
    var url := OrElse(if cat.Some? then cat.value.imageUrl else None, "");
    CategoryTotal(
      c,
      OrElse(if cat.Some? then Some(cat.value.name) else None, "Uknown"),
      OrElse(if cat.Some? then Some(cat.value.color) else None, "#ccc"),
      if url == "" then None else Some(url),
      SumBy(Members(rows, ByCategory(), c), Amount),
      OrElse(if cat.Some? then cat.value.imageVariant else None, "style-1"))
  }

  /** The total of an overview entry. */
  function CategoryAmount(e: CategoryTotal): int
  {
    e.total
  }

  /** What one more row does to the entry of category c. */
  lemma CategoryTotalSnoc(categories: map<Id, Category>, xs: seq<Transaction>, x: Transaction, c: Id)
    ensures CategoryTotalOf(categories, xs + [x], c) ==
      if x.categoryId != c then CategoryTotalOf(categories, xs, c)
      else CategoryTotalOf(categories, xs, c).(total := CategoryTotalOf(categories, xs, c).total + x.amount)
  {
    var key := ByCategory();
    assert key(x) == x.categoryId;
    SnocGroup(xs, key, Amount, x, c);
    var before := CategoryTotalOf(categories, xs, c);
    var after := CategoryTotalOf(categories, xs + [x], c);
    assert after.total == before.total + (if x.categoryId == c then x.amount else 0);
    assert after == before.(total := after.total);
  }

  /** The loop invariant of `Overview` after the rows xs. */
  ghost predicate CategoriesSoFar(categories: map<Id, Category>, xs: seq<Transaction>,
                                  acc: map<Id, CategoryTotal>, order: seq<Id>)
  {
    && order == Keys(xs, ByCategory())
    && (forall k :: k in acc <==> k in order)
    && (forall k :: k in acc ==> acc[k] == CategoryTotalOf(categories, xs, k))
  }

  /** The reducer of `getOverview`: adds one more row's amount to its category, opening the category if new. */
  method AddToCategory(categories: map<Id, Category>, ghost xs: seq<Transaction>, trx: Transaction,
                       acc: map<Id, CategoryTotal>, order: seq<Id>)
    returns (acc': map<Id, CategoryTotal>, order': seq<Id>)
    requires CategoriesSoFar(categories, xs, acc, order)
    ensures CategoriesSoFar(categories, xs + [trx], acc', order')
  {
    var catId := trx.categoryId;
    ghost var key := ByCategory();
    assert key(trx) == catId;
    KeysSnoc(xs, key, trx);
    var e: CategoryTotal;
    order' := order;
    if catId in acc {
      e := acc[catId];
    } else {
      var category := if catId in categories then Some(categories[catId]) else None;
      var url := OrElse(if category.Some? then category.value.imageUrl else None, "");
      e := CategoryTotal(
        catId,
        OrElse(if category.Some? then Some(category.value.name) else None, "Uknown"),
        OrElse(if category.Some? then Some(category.value.color) else None, "#ccc"),
        if url == "" then None else Some(url),
        0,
        OrElse(if category.Some? then category.value.imageVariant else None, "style-1"));
      order' := order + [catId];
    }
    assert e == CategoryTotalOf(categories, xs, catId);
    acc' := acc[catId := e.(total := e.total + trx.amount)];
    CategoryEntriesStep(categories, xs, trx, acc, e, acc');
  }

  /** One step of the `getOverview` reducer keeps the entry of every category the map holds. */
  lemma CategoryEntriesStep(categories: map<Id, Category>, xs: seq<Transaction>, x: Transaction,
                            acc: map<Id, CategoryTotal>, e: CategoryTotal, acc': map<Id, CategoryTotal>)
    requires forall k :: k in acc ==> acc[k] == CategoryTotalOf(categories, xs, k)
    requires e == CategoryTotalOf(categories, xs, x.categoryId)
    requires acc' == acc[x.categoryId := e.(total := e.total + x.amount)]
    ensures forall k :: k in acc' ==> acc'[k] == CategoryTotalOf(categories, xs + [x], k)
  {
    forall k | k in acc'
      ensures acc'[k] == CategoryTotalOf(categories, xs + [x], k)
    {
      CategoryTotalSnoc(categories, xs, x, k);
      if k != x.categoryId {
        assert acc'[k] == acc[k];
      }
    }
  }

  /** Listing the entries of the finished invariant in key order gives the overview and its total. */
  lemma CategoriesListed(categories: map<Id, Category>, rows: seq<Transaction>,
                         acc: map<Id, CategoryTotal>, order: seq<Id>, r: seq<CategoryTotal>)
    requires CategoriesSoFar(categories, rows, acc, order)
    requires |r| == |order| && forall n :: 0 <= n < |order| ==> r[n] == acc[order[n]]
    ensures var ks := Keys(rows, ByCategory());
      && |r| == |ks|
      && (forall n :: 0 <= n < |r| ==> r[n] == CategoryTotalOf(categories, rows, ks[n]))
      && SumBy(r, CategoryAmount) == SumBy(rows, Amount)
  {
    assert forall n :: 0 <= n < |order| ==> order[n] in acc;
    SumOfGroups(order, rows, ByCategory(), Amount, r, CategoryAmount);
    PartitionSum(rows, ByCategory(), Amount);
  }

  /**
   * `getOverview`: one entry per category of the user's live rows of the
   * given kind in the month, in the order the categories first appear, each
   * with the sum of its rows' amounts; the entries add up to the sum of all
   * those rows. Under `FreshIds` those rows are every matching stored row
   * (`RowsWhereListsAll`).
   */
  method Overview(db: Store, startDate: Instant, endDate: Instant, userId: Id, kind: TxType)
    returns (r: seq<CategoryTotal>)
    ensures var rows := RowsWhere(db.transactions, db.nextId, OverviewFilter(startDate, endDate, userId, kind));
      var ks := Keys(rows, ByCategory());
      && |r| == |ks|
      && (forall n :: 0 <= n < |r| ==> r[n] == CategoryTotalOf(db.categories, rows, ks[n]))
      && SumBy(r, CategoryAmount) == SumBy(rows, Amount)
  {
    var transactions := RowsWhere(db.transactions, db.nextId, OverviewFilter(startDate, endDate, userId, kind));
    var acc: map<Id, CategoryTotal> := map[];
    var order: seq<Id> := [];
    for i := 0 to |transactions|
      invariant CategoriesSoFar(db.categories, transactions[..i], acc, order)
    {
      acc, order := AddToCategory(db.categories, transactions[..i], transactions[i], acc, order);
      PrefixSnoc(transactions, i);
    }
    assert transactions[..|transactions|] == transactions;
    r := seq(|order|, n requires 0 <= n < |order| => acc[order[n]]);
    CategoriesListed(db.categories, transactions, acc, order, r);
  }
}
