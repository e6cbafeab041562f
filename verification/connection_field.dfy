/**
 * The limit/offset connection field: `connection_from_list_slice`, the glue
 * `resolve_connection` that attaches the backing collection, and the
 * `total_count` resolver of the generated connection type.
 */
module ConnectionField {
  import opened Wrappers
  import opened Pagination
  import opened Sources

  /** The field arguments; an absent key is `None`. */
  datatype Args = Args(limit: Option<int>, offset: Option<int>)

  /** `args.get("offset", 0)`. */
  function OffsetOf(args: Args): int {
    args.offset.GetOr(0)
  }

  /**
   * The offsets the model covers: a negative offset is a negative index on
   * a list and an error on a query set, and only matters once a positive
   * limit has been accepted.
   */
  predicate SupportedOffset(args: Args) {
    args.limit.Some? && args.limit.value > 0 ==> OffsetOf(args) >= 0
  }

  datatype PageInfo = PageInfo(hasPreviousPage: bool, hasNextPage: bool)

  /**
   * A connection value. `length` is the count cached by the limited path;
   * `iterable` is the backing collection `resolve_connection` attaches.
   */
  datatype Connection<T> = Connection(
    results: seq<T>,
    pageInfo: PageInfo,
    length: Option<nat>,
    iterable: Option<Source<T>>)

  /** The failures `connection_from_list_slice` raises. */
  datatype SliceError =
    | LimitNotPositive   // the `limit > 0` assertion
    | NotSubscriptable   // slicing a collection that cannot be sliced

  /**
   * The page whose flags are reported: the page an offset rounds up into,
   * `ceil(offset / limit) + 1`, pulled back to the last page when it lies
   * beyond it.
   */
  function TargetPage(offset: nat, limit: Pos, numPages: nat): (p: nat)
    requires numPages >= 1
    ensures 1 <= p <= numPages
    ensures p <= CeilDiv(offset, limit) + 1
    ensures p < CeilDiv(offset, limit) + 1 ==> p == numPages
  {
    var raw := CeilDiv(offset, limit) + 1;
    if raw > numPages then numPages else raw
  }

  /**
   * `connection_from_list_slice`. Without a limit the whole collection is
   * returned with both flags off and nothing cached. A non-positive limit is
   * refused before anything is read. Otherwise the results are the raw
   * window of `limit` items from `offset`, the count of the collection is
   * cached, and the flags come from the target page of a paginator.
   */
  function ConnectionFromListSlice<T>(source: Source<T>, args: Args): (r: Result<Connection<T>, SliceError>)
    requires SupportedOffset(args)
    ensures args.limit.None? ==>
      r == Success(Connection(source.items, PageInfo(false, false), None, None))
    ensures args.limit.Some? && args.limit.value <= 0 ==> r == Failure(LimitNotPositive)
    ensures args.limit.Some? && args.limit.value > 0 && !source.Subscriptable() ==>
      r == Failure(NotSubscriptable)
    ensures r.Success? ==> r.value.iterable.None?
    ensures args.limit.Some? && args.limit.value > 0 && source.Subscriptable() ==>
      && r.Success?
      && r.value.length == Some(|source.items|)
      && |r.value.results| <= args.limit.value
      && |r.value.results| == (if OffsetOf(args) < |source.items|
                               then Min(args.limit.value, |source.items| - OffsetOf(args))
                               else 0)
      && (forall i :: 0 <= i < |r.value.results| ==>
            r.value.results[i] == source.items[OffsetOf(args) + i])
  {
    match args.limit
    case None =>
      Success(Connection(source.items, PageInfo(false, false), None, None))
    case Some(limit) =>
      if limit <= 0 then Failure(LimitNotPositive)
      else if !source.Subscriptable() then Failure(NotSubscriptable)
      else
        var offset: nat := OffsetOf(args);
        // Django counts a query set with `count()` and a list with `len()`.
        var paginator := Paginator(|source.items|, limit);
        var window := Slice(source.items, offset, offset + limit);
        var page := paginator.Page(TargetPage(offset, limit, paginator.NumPages())).value;
        Success(Connection(
          window,
          PageInfo(page.HasPrevious(), page.HasNext()),
          Some(paginator.count),
          None))
  }

  /**
   * `resolve_connection`: build the connection and attach the backing
   * collection so that `total_count` can fall back on it.
   */
  function ResolveConnection<T>(source: Source<T>, args: Args): (r: Result<Connection<T>, SliceError>)
    requires SupportedOffset(args)
    ensures r.Success? <==> ConnectionFromListSlice(source, args).Success?
    ensures r.Failure? ==> r.error == ConnectionFromListSlice(source, args).error
    ensures r.Success? ==>
      var c := ConnectionFromListSlice(source, args).value;
      && r.value.iterable == Some(source)
      && r.value.results == c.results
      && r.value.pageInfo == c.pageInfo
      && r.value.length == c.length
  {
    match ConnectionFromListSlice(source, args)
    case Failure(e) => Failure(e)
    case Success(c) => Success(c.(iterable := Some(source)))
  }

  /** What escapes `resolve_total_count`. */
  datatype CountError =
    | MissingIterable     // neither `length` nor `iterable` was ever set
    | CountNeedsArgument  // `count()` on a list or tuple: a TypeError

  /**
   * `resolve_total_count` as written: the cached length, else the
   * collection's `count()`, else the length of the materialised collection.
   * Only a missing attribute moves to the next tier, so the argument-taking
   * `count` of a list raises instead of falling through.
   */
  function ResolveTotalCountAsWritten<T>(conn: Connection<T>): (r: Result<nat, CountError>)
    ensures conn.length.Some? ==> r == Success(conn.length.value)
    ensures conn.length.None? && conn.iterable.None? ==> r == Failure(MissingIterable)
    ensures conn.length.None? && conn.iterable.Some? ==>
      (r.Success? <==> !conn.iterable.value.Sequence?)
    ensures r.Success? && conn.length.None? ==> r.value == |conn.iterable.value.items|
  {
    match conn.length
    case Some(n) => Success(n)
    case None =>
      match conn.iterable
      case None => Failure(MissingIterable)
      case Some(QuerySet(items)) => Success(|items|)
      case Some(Sequence(_)) => Failure(CountNeedsArgument)
      case Some(Iterator(items)) => Success(|items|)
  }

  /**
   * `resolve_total_count` as intended: the cached length wins; otherwise
   * the size of the backing collection, however it has to be obtained.
   */
  function ResolveTotalCount<T>(conn: Connection<T>): (r: Result<nat, CountError>)
    ensures conn.length.Some? ==> r == Success(conn.length.value)
    ensures conn.length.None? && conn.iterable.None? ==> r == Failure(MissingIterable)
    ensures conn.length.None? && conn.iterable.Some? ==>
      r == Success(|conn.iterable.value.items|)
  {
    match conn.length
    case Some(n) => Success(n)
    case None =>
      match conn.iterable
      case None => Failure(MissingIterable)
      case Some(QuerySet(items)) => Success(|items|)
      case Some(Sequence(items)) => Success(|items|)
      case Some(Iterator(items)) => Success(|items|)
  }
}
