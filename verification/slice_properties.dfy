/**
 * Properties of `connection_from_list_slice` and of `total_count`
 * resolution that relate several calls or state the page flags in terms of
 * the offset, the limit and the size of the collection.
 */
module SliceProperties {
  import opened Wrappers
  import opened Pagination
  import opened Sources
  import opened ConnectionField

  /** A request on the limited path that succeeds. */
  predicate Limited<T>(source: Source<T>, args: Args) {
    && args.limit.Some?
    && args.limit.value > 0
    && OffsetOf(args) >= 0
    && source.Subscriptable()
  }

  /** The connection a limited request produces. */
  function Sliced<T>(source: Source<T>, args: Args): Connection<T>
    requires Limited(source, args)
  {
    ConnectionFromListSlice(source, args).value
  }

  /** The paginator a limited request builds. */
  function PaginatorOf<T>(source: Source<T>, args: Args): Paginator
    requires Limited(source, args)
  {
    Paginator(|source.items|, args.limit.value)
  }

  lemma CeilDivPositive(a: nat, b: Pos)
    ensures CeilDiv(a, b) >= 1 <==> a > 0
  {
    var q := CeilDiv(a, b);
    if q >= 1 {
      TimesMono(0, q - 1, b);
    }
  }

  lemma MoreThanOnePage(p: Paginator)
    ensures p.NumPages() >= 2 <==> p.count > p.perPage
  {
    var n := p.NumPages();
    if n >= 2 {
      TimesMono(1, n - 1, p.perPage);
    } else if p.count > 0 {
      TimesMono(n, 1, p.perPage);
    }
  }

  /**
   * The flags are those of the target page: a predecessor when it is not
   * the first page, a successor when it is not the last.
   */
  lemma FlagsFromTargetPage<T>(source: Source<T>, args: Args)
    requires Limited(source, args)
    ensures var n := PaginatorOf(source, args).NumPages();
            var p := TargetPage(OffsetOf(args), args.limit.value, n);
            && (Sliced(source, args).pageInfo.hasPreviousPage <==> p > 1)
            && (Sliced(source, args).pageInfo.hasNextPage <==> p < n)
  {
  }

  /**
   * There is a previous page exactly when the offset is positive and the
   * collection does not fit in one page.
   */
  lemma HasPreviousIff<T>(source: Source<T>, args: Args)
    requires Limited(source, args)
    ensures Sliced(source, args).pageInfo.hasPreviousPage <==>
            OffsetOf(args) > 0 && |source.items| > args.limit.value
  {
    var offset: nat := OffsetOf(args);
    var limit: Pos := args.limit.value;
    FlagsFromTargetPage(source, args);
    CeilDivPositive(offset, limit);
    MoreThanOnePage(PaginatorOf(source, args));
  }

  /**
   * There is a next page exactly when items remain after the page that
   * follows the one the offset rounds up into.
   */
  lemma HasNextIff<T>(source: Source<T>, args: Args)
    requires Limited(source, args)
    ensures Sliced(source, args).pageInfo.hasNextPage <==>
            Times(CeilDiv(OffsetOf(args), args.limit.value) + 1, args.limit.value) < |source.items|
  {
    var offset: nat := OffsetOf(args);
    var limit: Pos := args.limit.value;
    var pg := PaginatorOf(source, args);
    var n := pg.NumPages();
    var raw := CeilDiv(offset, limit) + 1;
    FlagsFromTargetPage(source, args);
    if raw > n {
      if pg.count > 0 {
        TimesMono(n, raw, limit);
      }
    } else {
      PageFlagsMatchItems(pg, raw);
    }
  }

  /** A reported next page is real: items follow the returned window. */
  lemma HasNextSound<T>(source: Source<T>, args: Args)
    requires Limited(source, args)
    requires Sliced(source, args).pageInfo.hasNextPage
    ensures OffsetOf(args) + args.limit.value < |source.items|
  {
    HasNextIff(source, args);
  }

  /** A reported previous page is real: items precede the returned window. */
  lemma HasPreviousSound<T>(source: Source<T>, args: Args)
    requires Limited(source, args)
    requires Sliced(source, args).pageInfo.hasPreviousPage
    ensures OffsetOf(args) > 0
  {
    HasPreviousIff(source, args);
  }

  /**
   * On the limited path the results are the contiguous window that starts
   * at the offset, and they are empty exactly when the offset is at or past
   * the end.
   */
  lemma ResultsAreWindow<T>(source: Source<T>, args: Args)
    requires Limited(source, args)
    ensures var n := |source.items|;
            var offset := OffsetOf(args);
            var stop := Min(offset + args.limit.value, n);
            && (offset <= n ==> Sliced(source, args).results == source.items[offset..stop])
            && (Sliced(source, args).results == [] <==> offset >= n)
  {
    var n := |source.items|;
    var offset := OffsetOf(args);
    var r := Sliced(source, args).results;
    if offset <= n {
      var stop := Min(offset + args.limit.value, n);
      assert |r| == stop - offset;
      assert forall i :: 0 <= i < |r| ==> r[i] == source.items[offset..stop][i];
    }
  }

  /**
   * An offset at or past the end is not an error: the results are empty,
   * there is no next page, and there is a previous page exactly when the
   * collection is longer than one page.
   */
  lemma OffsetPastEnd<T>(source: Source<T>, args: Args)
    requires Limited(source, args)
    requires OffsetOf(args) >= |source.items|
    ensures ConnectionFromListSlice(source, args).Success?
    ensures Sliced(source, args).results == []
    ensures !Sliced(source, args).pageInfo.hasNextPage
    ensures Sliced(source, args).pageInfo.hasPreviousPage <==> |source.items| > args.limit.value
  {
    HasNextIff(source, args);
    HasPreviousIff(source, args);
  }

  /**
   * The flags and the data disagree about where the page is: an offset of
   * 5 with a limit of 10 reports the flags of page 2 (items 10 to 19) but
   * returns items 5 to 14.
   */
  lemma FlagsAndWindowDisagree<T>(source: Source<T>)
    requires source.Subscriptable() && |source.items| == 25
    ensures var args := Args(Some(10), Some(5));
            && TargetPage(5, 10, PaginatorOf(source, args).NumPages()) == 2
            && Sliced(source, args).results == source.items[5..15]
            && Sliced(source, args).pageInfo == PageInfo(true, true)
  {
    var args := Args(Some(10), Some(5));
    ResultsAreWindow(source, args);
    HasNextIff(source, args);
    HasPreviousIff(source, args);
  }

  /**
   * The next-page flag can miss data: with 18 items, a limit of 10 and an
   * offset of 5 the window ends at item 14, yet no next page is reported.
   */
  lemma NextPageMissed<T>(source: Source<T>)
    requires source.Subscriptable() && |source.items| == 18
    ensures var args := Args(Some(10), Some(5));
            && Sliced(source, args).results == source.items[5..15]
            && !Sliced(source, args).pageInfo.hasNextPage
  {
    var args := Args(Some(10), Some(5));
    ResultsAreWindow(source, args);
    HasNextIff(source, args);
  }

  /** Pages of ten over 25 items, read from the start, the end and past it. */
  lemma TwentyFiveItems<T>(source: Source<T>)
    requires source.Subscriptable() && |source.items| == 25
    ensures Sliced(source, Args(Some(10), Some(0))) ==
            Connection(source.items[0..10], PageInfo(false, true), Some(25), None)
    ensures Sliced(source, Args(Some(10), Some(20))) ==
            Connection(source.items[20..25], PageInfo(true, false), Some(25), None)
    ensures Sliced(source, Args(Some(10), Some(100))) ==
            Connection([], PageInfo(true, false), Some(25), None)
  {
    var first := Args(Some(10), Some(0));
    var last := Args(Some(10), Some(20));
    var beyond := Args(Some(10), Some(100));
    ResultsAreWindow(source, first);
    HasNextIff(source, first);
    HasPreviousIff(source, first);
    ResultsAreWindow(source, last);
    HasNextIff(source, last);
    HasPreviousIff(source, last);
    OffsetPastEnd(source, beyond);
  }

  /**
   * Whichever tier answers, `total_count` of a resolved connection is the
   * size of the backing collection, for every limit and offset.
   */
  lemma TotalCountIsSourceSize<T>(source: Source<T>, args: Args)
    requires SupportedOffset(args)
    requires ResolveConnection(source, args).Success?
    ensures ResolveTotalCount(ResolveConnection(source, args).value) == Success(|source.items|)
  {
  }

  /**
   * On the limited path the cached length answers first, so even the
   * resolver as written reports the size of the collection.
   */
  lemma LimitedTotalCountAsWritten<T>(source: Source<T>, args: Args)
    requires Limited(source, args)
    ensures ResolveTotalCountAsWritten(ResolveConnection(source, args).value) == Success(|source.items|)
  {
  }

  /**
   * The resolver as written fails on a plain list returned without a limit:
   * nothing is cached and the list's `count` needs an argument. The
   * intended resolver returns its length.
   */
  lemma ListWithoutLimitCountFails(items: seq<int>)
    ensures var conn := ResolveConnection(Sequence(items), Args(None, None)).value;
            && ResolveTotalCountAsWritten(conn) == Failure(CountNeedsArgument)
            && ResolveTotalCount(conn) == Success(|items|)
  {
  }

  /** Everywhere else the resolver as written and the intended one agree. */
  lemma AsWrittenAgreesElsewhere<T>(conn: Connection<T>)
    requires conn.length.Some? || conn.iterable.None? || !conn.iterable.value.Sequence?
    ensures ResolveTotalCountAsWritten(conn) == ResolveTotalCount(conn)
  {
  }
}
