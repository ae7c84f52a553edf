/**
 * The `paginate` helper: every row, a cursor page, or an offset page of a
 * model's rows, with the page's meta. The model is its two queries, given
 * as functions; which rows a query returns is up to the store.
 */
module Pagination {
  import opened Wrappers
  import opened Sums

  // ---------------------------------------------------------------------------
  // JavaScript numbers and the optional options
  // ---------------------------------------------------------------------------

  /** The values `Math.ceil` can give back on an integer quotient. */
  datatype JsNumber = Finite(value: int) | Infinity | NegInfinity | NaN

  /**
   * `Math.ceil(n / d)`: the least integer at or above the quotient; a zero
   * divisor gives an infinity of the numerator's sign, or NaN for 0 / 0.
   */
  function CeilDiv(n: int, d: int): (r: JsNumber)
    ensures d > 0 ==> r.Finite? && d * (r.value - 1) < n <= d * r.value
    ensures d < 0 ==> r.Finite? && d * r.value <= n < d * (r.value - 1)
    ensures d == 0 ==> r == if n > 0 then Infinity else if n < 0 then NegInfinity else NaN
  {
    if d > 0 then
      var q := -((-n) / d);
      FloorBounds(-n, d);
      Finite(q)
    else if d < 0 then
      var q := -(n / (-d));
      FloorBounds(n, -d);
      Finite(q)
    else if n > 0 then Infinity
    else if n < 0 then NegInfinity
    else NaN
  }

  /** A JavaScript number option is truthy when it is given and not 0. */
  predicate TruthyNumber(x: Option<int>)
  {
    x.Some? && x.value != 0
  }

  /** A string option is truthy when it is given and not empty. */
  predicate TruthyString(x: Option<string>)
  {
    x.Some? && x.value != ""
  }

  // ---------------------------------------------------------------------------
  // Queries and pages
  // ---------------------------------------------------------------------------

  /** What a fetch adds to the caller's arguments: a skip, a take and a cursor row id. */
  datatype Window = Window(skip: Option<int>, take: Option<int>, cursor: Option<string>)

  /** The argument of a count: nothing at all, or an object with just a where clause (maybe undefined). */
  datatype CountArgs<W> = NoCountArgs | WhereOnly(where: Option<W>)

  /**
   * A model: `findMany` on the caller's arguments and a window, `count` on
   * its count argument, the where clause a caller's arguments carry, and a
   * row's id.
   */
  datatype Model<!A, !W, !R> = Model(
    findMany: (Option<A>, Window) -> seq<R>,
    count: CountArgs<W> -> nat,
    whereOf: A -> Option<W>,
    idOf: R -> string)

  /**
   * The meta of a page. Offset meta has an optional page and limit (null for
   * an unpaged listing); cursor meta has the last row's id, the row count and
   * whether the page came back full.
   */
  datatype Meta =
    | OffsetMeta(total: int, page: Option<int>, limit: Option<int>, pageCount: JsNumber)
    | CursorMeta(cursor: Option<string>, count: nat, hasMore: bool)

  datatype Page<R> = Page(data: seq<R>, meta: Meta)

  /** The cursor meta of the rows a cursor fetch of `take` rows returned. */
  function CursorMetaOf<R>(idOf: R -> string, data: seq<R>, take: int): (m: Meta)
    ensures m.CursorMeta? && m.count == |data|
    ensures m.cursor == if |data| > 0 then Some(idOf(data[|data| - 1])) else None
    ensures m.hasMore <==> |data| == take
  {
    CursorMeta(if |data| > 0 then Some(idOf(data[|data| - 1])) else None, |data|, |data| == take)
  }

  /** The rows page p of `take` rows starts after. */
  function OffsetSkip(page: int, take: int): int
  {
    (page - 1) * take
  }

  /** The argument the count of an offset page gets: the where clause of the arguments, missing when they are. */
  function WhereOf<A, W>(whereOf: A -> Option<W>, args: Option<A>): Option<W>
  {
    if args.Some? then whereOf(args.value) else None
  }

  /**
   * `paginate`: with no truthy page, limit or cursor, every row and meta
   * saying so; with a truthy cursor, `limit ?? 10` rows after the cursor
   * row; otherwise page `page ?? 1` of `limit ?? 10` rows, counted with the
   * same where clause as the fetch.
   */
  function Paginate<A, W, R>(model: Model<A, W, R>, args: Option<A>,
                             page: Option<int>, limit: Option<int>, cursor: Option<string>): (r: Page<R>)
    ensures !TruthyNumber(page) && !TruthyNumber(limit) && !TruthyString(cursor) ==>
      && r.data == model.findMany(args, Window(None, None, None))
      && r.meta == OffsetMeta(|r.data|, None, None, Finite(1))
    ensures TruthyString(cursor) ==>
      var take := limit.GetOr(10);
      && r.data == model.findMany(args, Window(Some(1), Some(take), cursor))
      && r.meta.CursorMeta? && r.meta.count == |r.data|
      && r.meta.cursor == (if |r.data| > 0 then Some(model.idOf(r.data[|r.data| - 1])) else None)
      && (r.meta.hasMore <==> |r.data| == take)
    ensures (TruthyNumber(page) || TruthyNumber(limit)) && !TruthyString(cursor) ==>
      var currentPage := page.GetOr(1);
      var take := limit.GetOr(10);
      && r.data == model.findMany(args, Window(Some(OffsetSkip(currentPage, take)), Some(take), None))
      && r.meta == OffsetMeta(model.count(WhereOnly(WhereOf(model.whereOf, args))), Some(currentPage), Some(take),
                              CeilDiv(model.count(WhereOnly(WhereOf(model.whereOf, args))), take))
  {
    if !TruthyNumber(page) && !TruthyNumber(limit) && !TruthyString(cursor) then
      var data := model.findMany(args, Window(None, None, None));
      Page(data, OffsetMeta(|data|, None, None, Finite(1)))
    else if TruthyString(cursor) then
      var take := limit.GetOr(10);
      var data := model.findMany(args, Window(Some(1), Some(take), cursor));
      Page(data, CursorMetaOf(model.idOf, data, take))
    else
      var currentPage := page.GetOr(1);
      var take := limit.GetOr(10);
      var skip := OffsetSkip(currentPage, take);
      var data := model.findMany(args, Window(Some(skip), Some(take), None));
      var total := model.count(WhereOnly(WhereOf(model.whereOf, args)));
      Page(data, OffsetMeta(total, Some(currentPage), Some(take), CeilDiv(total, take)))
  }

  // ---------------------------------------------------------------------------
  // Properties
  // ---------------------------------------------------------------------------

  /** Consecutive pages abut: page p + 1 starts where page p ends. */
  lemma PagesAbut(page: int, take: int)
    ensures OffsetSkip(page + 1, take) == OffsetSkip(page, take) + take
  {
    assert (page + 1 - 1) * take == (page - 1) * take + take;
  }

  /**
   * The offset total is the count of the where clause alone: any two pages
   * of the same arguments and limit report the same total and page count.
   */
  lemma TotalIndependentOfPage<A, W, R>(model: Model<A, W, R>, args: Option<A>, p1: int, p2: int, limit: Option<int>)
    requires p1 != 0 && p2 != 0
    ensures var m1 := Paginate(model, args, Some(p1), limit, None).meta;
      var m2 := Paginate(model, args, Some(p2), limit, None).meta;
      && m1.OffsetMeta? && m2.OffsetMeta?
      && m1.total == m2.total && m1.pageCount == m2.pageCount
  {
  }

  /**
   * With a positive take and rows to show, the page count is the number of
   * pages that hold every counted row: the last page starts before the last
   * counted row and the page after it starts at or after the total.
   */
  lemma LastPageHoldsLastRow<A, W, R>(model: Model<A, W, R>, args: Option<A>, page: Option<int>, limit: Option<int>)
    requires TruthyNumber(page) || TruthyNumber(limit)
    requires limit.GetOr(10) > 0
    ensures var m := Paginate(model, args, page, limit, None).meta;
      var take := limit.GetOr(10);
      && m.OffsetMeta? && m.pageCount.Finite?
      && (m.total > 0 ==> m.pageCount.value >= 1 && OffsetSkip(m.pageCount.value, take) < m.total)
      && m.total <= OffsetSkip(m.pageCount.value + 1, take)
  {
    var m := Paginate(model, args, page, limit, None).meta;
    var take := limit.GetOr(10);
    var pc := m.pageCount.value;
    PagesAbut(pc, take);
    assert OffsetSkip(pc, take) == take * (pc - 1);
    if pc < 1 {
      NegativeProduct(take, pc - 1);
    }
  }

  /** A positive factor times a negative integer is negative. */
  lemma NegativeProduct(d: int, k: int)
    requires d > 0 && k < 0
    ensures d * k < 0
  {
    assert d * k == -(d * -k);
  }

  /** A cursor page that comes back short of the take reports nothing more to fetch. */
  lemma ShortCursorPageIsLast<A, W, R>(model: Model<A, W, R>, args: Option<A>, limit: Option<int>, cursor: Option<string>)
    requires TruthyString(cursor)
    requires |Paginate(model, args, None, limit, cursor).data| < limit.GetOr(10)
    ensures !Paginate(model, args, None, limit, cursor).meta.hasMore
  {
  }

  /** A zero limit makes the offset page count infinite, or NaN when nothing is counted. */
  lemma ZeroLimitPageCount<A, W, R>(model: Model<A, W, R>, args: Option<A>, page: int)
    requires page != 0
    ensures Paginate(model, args, Some(page), Some(0), None).meta.pageCount
         == if model.count(WhereOnly(WhereOf(model.whereOf, args))) > 0 then Infinity else NaN
  {
  }
}
