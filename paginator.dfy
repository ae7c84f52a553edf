/**
 * `createPaginator`: a closure over one model that pages its rows by cursor
 * or by offset. Unlike `paginate` it has no unpaged mode: the limit
 * defaults to 10 before anything is decided.
 */
module Paginator {
  import opened Wrappers
  import opened Pagination

  /** What the closure is called with. */
  datatype PagerOptions<A> = PagerOptions(args: Option<A>, page: Option<int>, limit: Option<int>, cursor: Option<string>)

  /** The count argument of an offset page: just the where clause when the arguments have one, else nothing. */
  function CountArgsOf<A, W>(whereOf: A -> Option<W>, args: Option<A>): (c: CountArgs<W>)
    ensures args.Some? && whereOf(args.value).Some? ==> c == WhereOnly(whereOf(args.value))
    ensures args.None? || whereOf(args.value).None? ==> c == NoCountArgs
  {
    if args.Some? && whereOf(args.value).Some? then WhereOnly(whereOf(args.value)) else NoCountArgs
  }

  /**
   * One call of the closure: with a truthy cursor, `limit` rows after the
   * cursor row; otherwise page `page ?? 1` of `limit` rows, with the count
   * of the where clause alone. `limit` is 10 when it is not given.
   */
  function Paged<A, W, R>(model: Model<A, W, R>, options: PagerOptions<A>): (r: Page<R>)
    ensures var limit := options.limit.GetOr(10);
      TruthyString(options.cursor) ==>
      && r.data == model.findMany(options.args, Window(Some(1), Some(limit), options.cursor))
      && r.meta.CursorMeta? && r.meta.count == |r.data|
      && r.meta.cursor == (if |r.data| > 0 then Some(model.idOf(r.data[|r.data| - 1])) else None)
      && (r.meta.hasMore <==> |r.data| == limit)
    ensures var limit := options.limit.GetOr(10);
      var currentPage := options.page.GetOr(1);
      var total := model.count(CountArgsOf(model.whereOf, options.args));
      !TruthyString(options.cursor) ==>
      && r.data == model.findMany(options.args, Window(Some(OffsetSkip(currentPage, limit)), Some(limit), None))
      && r.meta == OffsetMeta(total, Some(currentPage), Some(limit), CeilDiv(total, limit))
  {
    var limit := options.limit.GetOr(10);
    if TruthyString(options.cursor) then
      var data := model.findMany(options.args, Window(Some(1), Some(limit), options.cursor));
      Page(data, CursorMetaOf(model.idOf, data, limit))
    else
      var currentPage := options.page.GetOr(1);
      var skip := OffsetSkip(currentPage, limit);
      var data := model.findMany(options.args, Window(Some(skip), Some(limit), None));
      var total := model.count(CountArgsOf(model.whereOf, options.args));
      Page(data, OffsetMeta(total, Some(currentPage), Some(limit), CeilDiv(total, limit)))
  }

  /** `createPaginator(model)`: the closure that pages the model's rows. */
  function CreatePaginator<A(!new), W, R>(model: Model<A, W, R>): (pager: PagerOptions<A> -> Page<R>)
    ensures forall options :: pager(options) == Paged(model, options)
  {
    (options: PagerOptions<A>) => Paged(model, options)
  }

  /**
   * Called with no option at all, the closure gives the first page of 10
   * rows, where `paginate` would give every row.
   */
  lemma NoOptionsGiveFirstPage<A(!new), W, R>(model: Model<A, W, R>)
    ensures var r := CreatePaginator(model)(PagerOptions(None, None, None, None));
      && r.data == model.findMany(None, Window(Some(0), Some(10), None))
      && r.meta.OffsetMeta? && r.meta.page == Some(1) && r.meta.limit == Some(10)
    ensures Paginate(model, None, None, None, None).data == model.findMany(None, Window(None, None, None))
  {
  }

  /**
   * When `paginate` pages at all, the closure gives the same page, provided
   * the model counts every row alike with no argument and with an undefined
   * where clause.
   */
  lemma AgreesWithPaginate<A(!new), W, R>(model: Model<A, W, R>, options: PagerOptions<A>)
    requires TruthyNumber(options.page) || TruthyNumber(options.limit) || TruthyString(options.cursor)
    requires model.count(NoCountArgs) == model.count(WhereOnly(None))
    ensures CreatePaginator(model)(options)
         == Paginate(model, options.args, options.page, options.limit, options.cursor)
  {
    if !TruthyString(options.cursor) {
      assert CountArgsOf(model.whereOf, options.args) == NoCountArgs
          || CountArgsOf(model.whereOf, options.args) == WhereOnly(WhereOf(model.whereOf, options.args));
    }
  }

  /** Every offset page of the same arguments and limit reports the same total and page count. */
  lemma PagesShareTotal<A, W, R>(model: Model<A, W, R>, args: Option<A>, p1: int, p2: int, limit: Option<int>)
    ensures var m1 := Paged(model, PagerOptions(args, Some(p1), limit, None)).meta;
      var m2 := Paged(model, PagerOptions(args, Some(p2), limit, None)).meta;
      && m1.OffsetMeta? && m2.OffsetMeta?
      && m1.total == m2.total && m1.pageCount == m2.pageCount
  {
  }
}
