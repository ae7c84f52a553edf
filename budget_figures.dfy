/**
 * The read side of the budget service: which budgets a month lists, and the
 * figures each listed budget carries (spent, remaining, usage per cent of
 * the total, and per item the progress per cent of its plan).
 *
 * The service rounds a float quotient with `Math.round`; here the quotient
 * is exact, so `RoundPercent` is the rounding of the true value, half up.
 */
module BudgetFigures {
  import opened Wrappers
  import opened Schema
  import opened Grouping
  import opened Sums

  // ---------------------------------------------------------------------------
  // Rounded percentages
  // ---------------------------------------------------------------------------

  /**
   * `Math.round(a / b * 100)` on exact values: the integer nearest to
   * 100·a/b, halves rounded up (towards +∞, as `Math.round` does).
   */
  function RoundPercent(a: int, b: int): (r: int)
    requires b > 0
    ensures 2 * b * r - b <= 200 * a < 2 * b * r + b
  {
    var q := (200 * a + b) / (2 * b);
    FloorBounds(200 * a + b, 2 * b);
    q
  }

  /** A positive factor times a positive integer is at least the factor. */
  lemma {:induction false} MulAtLeast(d: int, k: int)
    requires d > 0 && k >= 1
    ensures d * k >= d
  {
    if k > 1 {
      MulAtLeast(d, k - 1);
      assert d * k == d * (k - 1) + d;
    }
  }

  /** An integer whose multiple by d stays below d is not positive. */
  lemma BelowOne(d: int, k: int)
    requires d > 0 && d * k < d
    ensures k <= 0
  {
    if k >= 1 {
      MulAtLeast(d, k);
    }
  }

  /** The rounding is the only integer within half a unit of 100·a/b. */
  lemma RoundPercentUnique(a: int, b: int, r: int)
    requires b > 0
    requires 2 * b * r - b <= 200 * a < 2 * b * r + b
    ensures r == RoundPercent(a, b)
  {
    var q := RoundPercent(a, b);
    assert 2 * b * (r - q) == 2 * b * r - 2 * b * q;
    assert 2 * b * (q - r) == 2 * b * q - 2 * b * r;
    BelowOne(2 * b, r - q);
    BelowOne(2 * b, q - r);
  }

  /** A larger numerator never gives a smaller percentage. */
  lemma RoundPercentMonotone(a: int, a': int, b: int)
    requires b > 0 && a <= a'
    ensures RoundPercent(a, b) <= RoundPercent(a', b)
  {
    var r := RoundPercent(a, b);
    var r' := RoundPercent(a', b);
    assert 2 * b * (r - r') == 2 * b * r - 2 * b * r';
    BelowOne(2 * b, r - r');
  }

  /** Nothing of b is 0 per cent, all of b is 100 per cent, and a share between is between. */
  lemma RoundPercentRange(a: int, b: int)
    requires b > 0 && 0 <= a <= b
    ensures RoundPercent(0, b) == 0
    ensures RoundPercent(b, b) == 100
    ensures 0 <= RoundPercent(a, b) <= 100
  {
    RoundPercentUnique(0, b, 0);
    assert 2 * b * 100 == 200 * b;
    RoundPercentUnique(b, b, 100);
    RoundPercentMonotone(0, a, b);
    RoundPercentMonotone(a, b, b);
  }

  /** A share exactly halfway between k and k + 1 per cent rounds up to k + 1, for either sign of k. */
  lemma RoundPercentHalfUp(a: int, b: int, k: int)
    requires b > 0 && 200 * a == 2 * b * k + b
    ensures RoundPercent(a, b) == k + 1
  {
    assert 2 * b * (k + 1) - b == 200 * a;
    RoundPercentUnique(a, b, k + 1);
  }

  /** Instances: half of one per cent of 200 rounds to 1, minus half of one per cent to 0. */
  lemma RoundPercentHalfUpInstances()
    ensures RoundPercent(1, 200) == 1
    ensures RoundPercent(-1, 200) == 0
  {
    RoundPercentHalfUp(1, 200, 0);
    RoundPercentHalfUp(-1, 200, -1);
  }

  // ---------------------------------------------------------------------------
  // The figures of one budget
  // ---------------------------------------------------------------------------

  /** An item's actual. */
  function Actual(i: BudgetItem): int
  {
    i.actual
  }

  /**
   * The items of budget b with id below n, in id order. When every item is
   * stored under its own id, their ids strictly increase, so each item is
   * listed once. With n the id counter of a store whose ids are fresh, every
   * stored item of the budget is listed (`ItemsOfBudgetListsAll`).
   */
  function ItemsOfBudget(items: map<Id, BudgetItem>, b: Id, n: nat): (r: seq<BudgetItem>)
    ensures forall i :: i in r ==> i in items.Values && i.budgetId == b
    ensures forall k :: 0 <= k < n && k in items && items[k].budgetId == b ==> items[k] in r
    ensures (forall k :: k in items ==> items[k].id == k) ==>
      && (forall i :: i in r ==> i.id < n)
      && (forall j, k :: 0 <= j < k < |r| ==> r[j].id < r[k].id)
  {
    if n == 0 then []
    else
      var k := n - 1;
      var prev := ItemsOfBudget(items, b, k);
      if k in items && items[k].budgetId == b then
        assert forall j :: 0 <= j < |prev| ==> (prev + [items[k]])[j] == prev[j];
        prev + [items[k]]
      else prev
  }

  /** In a store whose ids are all below the counter, the budget lists every stored item of its own. */
  lemma ItemsOfBudgetListsAll(s: State, b: Id)
    requires FreshIds(s)
    ensures forall k :: k in s.items && s.items[k].budgetId == b ==> s.items[k] in ItemsOfBudget(s.items, b, s.nextId)
  {
  }

  /** Usage: spent as a rounded percentage of the total, 0 when the total is not positive. */
  function Usage(total: int, spent: int): (r: int)
    ensures total > 0 ==> 2 * total * r - total <= 200 * spent < 2 * total * r + total
    ensures total <= 0 ==> r == 0
  {
    if total > 0 then RoundPercent(spent, total) else 0
  }

  /** Progress of an item: its actual as a rounded percentage of its plan, 0 when the plan is not positive. */
  function Progress(i: BudgetItem): (r: int)
    ensures i.planned > 0 ==> 2 * i.planned * r - i.planned <= 200 * i.actual < 2 * i.planned * r + i.planned
    ensures i.planned <= 0 ==> r == 0
  {
    if i.planned > 0 then RoundPercent(i.actual, i.planned) else 0
  }

  /** One item of a listed budget. */
  datatype ItemView = ItemView(id: Id, category: Option<Category>, planned: int, actual: int, progress: int)

  /** One listed budget. */
  datatype BudgetView = BudgetView(
    id: Id, name: string, startAt: Instant, endAt: Instant, wallet: Option<Wallet>,
    total: int, remaining: int, spent: int, usage: int, categories: seq<ItemView>)

  /** The view of one item, with its category joined in. */
  function ViewItem(categories: map<Id, Category>, i: BudgetItem): (r: ItemView)
    ensures r.id == i.id && r.planned == i.planned && r.actual == i.actual
    ensures r.category == if i.categoryId in categories then Some(categories[i.categoryId]) else None
    ensures r.progress == Progress(i)
  {
    ItemView(i.id, if i.categoryId in categories then Some(categories[i.categoryId]) else None,
             i.planned, i.actual, Progress(i))
  }

  /** The views of a budget's items, in their order. */
  function ViewItems(categories: map<Id, Category>, items: seq<BudgetItem>): (r: seq<ItemView>)
    ensures |r| == |items|
    ensures forall n :: 0 <= n < |r| ==> r[n] == ViewItem(categories, items[n])
  {
    if |items| == 0 then [] else ViewItems(categories, items[..|items| - 1]) + [ViewItem(categories, items[|items| - 1])]
  }

  /**
   * The view of budget b in store s: its wallet joined in, its spent is the
   * sum of the actuals of all its items, remaining and spent add up to the total, usage is the
   * rounded share of the total that is spent, and there is one entry per
   * item, in order. Under `FreshIds` the items are all of the budget's
   * stored items (`ItemsOfBudgetListsAll`).
   */
  function ViewBudget(s: State, b: Budget): (v: BudgetView)
    ensures var items := ItemsOfBudget(s.items, b.id, s.nextId);
      && v.id == b.id && v.name == b.name && v.startAt == b.startAt && v.endAt == b.endAt && v.total == b.total
      && v.wallet == (if b.walletId in s.wallets then Some(s.wallets[b.walletId]) else None)
      && v.spent == SumBy(items, Actual)
      && v.remaining + v.spent == v.total
      && (b.total > 0 ==> 2 * b.total * v.usage - b.total <= 200 * v.spent < 2 * b.total * v.usage + b.total)
      && (b.total <= 0 ==> v.usage == 0)
      && |v.categories| == |items|
      && forall n :: 0 <= n < |items| ==> v.categories[n] == ViewItem(s.categories, items[n])
  {
    var items := ItemsOfBudget(s.items, b.id, s.nextId);
    var spent := SumBy(items, Actual);
    BudgetView(
      b.id, b.name, b.startAt, b.endAt,
      if b.walletId in s.wallets then Some(s.wallets[b.walletId]) else None,
      b.total, b.total - spent, spent, Usage(b.total, spent), ViewItems(s.categories, items))
  }

  /** An item's plan. */
  function Planned(i: BudgetItem): int
  {
    i.planned
  }

  /** With no item overspent, the budget spends no more than the items plan. */
  lemma {:induction false} SpentWithinPlans(items: seq<BudgetItem>)
    requires forall n :: 0 <= n < |items| ==> items[n].actual <= items[n].planned
    ensures SumBy(items, Actual) <= SumBy(items, Planned)
  {
    if |items| > 0 {
      SpentWithinPlans(items[..|items| - 1]);
    }
  }

  /** A budget whose items' actuals are within its total has its usage between 0 and 100 per cent. */
  lemma UsageRange(s: State, b: Budget)
    requires b.total > 0
    requires 0 <= ViewBudget(s, b).spent <= b.total
    ensures 0 <= ViewBudget(s, b).usage <= 100
    ensures ViewBudget(s, b).remaining >= 0
  {
    RoundPercentRange(ViewBudget(s, b).spent, b.total);
  }

  // ---------------------------------------------------------------------------
  // The month filter of the listing
  // ---------------------------------------------------------------------------

  /** The month clause: the budget starts within the month, or starts by its end and ends after its start. */
  predicate InMonth(b: Budget, startDate: Instant, endDate: Instant)
  {
    (startDate <= b.startAt <= endDate) || (b.startAt <= endDate && b.endAt >= startDate)
  }

  /**
   * The where clause of the listing: a month filter only when both the month
   * index and the year are given (month index 0 is January, so it counts as
   * given); the calendar bounds of the month come from `bounds`.
   */
  function MonthWhere(monthIndex: Option<int>, year: Option<int>, bounds: (int, int) -> (Instant, Instant)): (p: Budget -> bool)
    ensures monthIndex.None? || year.None? ==> forall b :: p(b)
    ensures monthIndex.Some? && year.Some? ==>
      forall b :: p(b) == InMonth(b, bounds(year.value, monthIndex.value).0, bounds(year.value, monthIndex.value).1)
  {
    if monthIndex.Some? && year.Some? then
      var (startDate, endDate) := bounds(year.value, monthIndex.value);
      (b: Budget) => InMonth(b, startDate, endDate)
    else
      (b: Budget) => true
  }

  /** For a budget whose range is not inverted, the month clause is exactly "the ranges overlap". */
  lemma InMonthIsOverlap(b: Budget, startDate: Instant, endDate: Instant)
    requires b.startAt <= b.endAt
    ensures InMonth(b, startDate, endDate) <==> Overlaps(b.startAt, b.endAt, startDate, endDate)
  {
  }

  /** An inverted budget range that starts within the month is listed although the ranges do not overlap. */
  lemma InMonthInvertedRange()
    ensures var b := Budget(0, "", 0, 5, 1, 0);
      InMonth(b, 3, 10) && !Overlaps(b.startAt, b.endAt, 3, 10)
  {
  }

  /** The listing of one page of budgets: each budget of the page, as its view, in page order. */
  function ListBudgets(s: State, page: seq<Budget>): (r: seq<BudgetView>)
    ensures |r| == |page|
    ensures forall n :: 0 <= n < |r| ==> r[n] == ViewBudget(s, page[n])
  {
    seq(|page|, n requires 0 <= n < |page| => ViewBudget(s, page[n]))
  }
}
