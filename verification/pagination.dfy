/**
 * An abstract model of the Django `Paginator` the connection field builds,
 * with Django's defaults (`allow_empty_first_page` set, no orphans).
 * Only the parts the connection field consults are modelled: the item
 * count, the number of pages, page lookup and the two neighbour flags.
 */
module Pagination {
  import opened Wrappers

  /** A positive page size; the connection field rejects anything else. */
  type Pos = n: int | n > 0 witness 1

  /** The number of item slots in `pages` pages of `size` items each. */
  function Times(pages: nat, size: nat): nat {
    if pages == 0 then 0 else Times(pages - 1, size) + size
  }

  /** More pages never hold fewer slots. */
  lemma {:induction false} TimesMono(j: nat, k: nat, size: nat)
    requires j <= k
    ensures Times(j, size) <= Times(k, size)
  {
    if j < k {
      TimesMono(j, k - 1, size);
    }
  }

  /**
   * Integer ceiling of `a / b`, standing in for `math.ceil(a / b)` on
   * non-negative operands: the least number of pages of `b` items that
   * holds `a` items.
   */
  function CeilDiv(a: nat, b: Pos): (q: nat)
    ensures Times(q, b) >= a
    ensures q == 0 || Times(q - 1, b) < a
    decreases a
  {
    if a == 0 then 0
    else if a <= b then 1
    else CeilDiv(a - b, b) + 1
  }

  /** Why Django's `Paginator.page` refuses a page number. */
  datatype PageError = LessThanOne | NoResults

  /** A paginator over `count` items in chunks of `perPage`. */
  datatype Paginator = Paginator(count: nat, perPage: Pos) {

    /**
     * The number of pages: there is always at least one (an empty first
     * page is allowed), and otherwise the pages cover every item while the
     * last page is not empty.
     */
    function NumPages(): (n: nat)
      ensures n >= 1
      ensures count == 0 ==> n == 1
      ensures count > 0 ==> Times(n - 1, perPage) < count <= Times(n, perPage)
    {
      CeilDiv(if count > 0 then count else 1, perPage)
    }

    /**
     * Django's `page(number)`: page numbers below one and beyond the last
     * page are refused; every other number yields that page.
     */
    function Page(number: int): (r: Result<Page, PageError>)
      ensures r.Success? <==> 1 <= number <= NumPages()
      ensures r.Success? ==> r.value.paginator == this && r.value.number == number
      ensures number < 1 ==> r == Failure(LessThanOne)
      ensures number > NumPages() ==> r == Failure(NoResults)
    {
      if number < 1 then Failure(LessThanOne)
      else if number > NumPages() then Failure(NoResults)
      else Success(PageOf(this, number))
    }
  }

  /** Page `number` (counted from one) of `paginator`. */
  datatype Page = PageOf(paginator: Paginator, number: nat) {

    /** Django's `Page.has_previous`. */
    predicate HasPrevious() {
      number > 1
    }

    /** Django's `Page.has_next`. */
    predicate HasNext() {
      number < paginator.NumPages()
    }
  }

  /**
   * The page flags mean what their names say: a valid page has a successor
   * exactly when items remain after its last slot, and a predecessor
   * exactly when items precede its first slot.
   */
  lemma PageFlagsMatchItems(p: Paginator, number: int)
    requires p.Page(number).Success?
    ensures p.Page(number).value.HasNext() <==> Times(number, p.perPage) < p.count
    ensures p.Page(number).value.HasPrevious() <==> Times(number - 1, p.perPage) > 0
  {
    var n := p.NumPages();
    if number < n {
      TimesMono(number, n - 1, p.perPage);
    } else {
      TimesMono(n, number, p.perPage);
    }
    if number > 1 {
      TimesMono(1, number - 1, p.perPage);
    }
  }
}
