# graphene-django-pagination: limit/offset slicing, modelled in Dafny

This project models the core of `graphene-django-pagination`, a connection field
for graphene-django. The field pages a list with `limit`/`offset` arguments
instead of relay cursors. The model covers three pieces:

- `connection_from_list_slice`: it returns the raw window `source[offset:offset+limit]`,
  page flags taken from a Django `Paginator`, and a cached total length.
- `resolve_connection`: it attaches the backing collection to the connection.
- `resolve_total_count`: it answers `total_count` from the cached length, else from
  the collection's `count()`, else from the length of the materialised collection.

Modules:

- `Wrappers` (`wrappers.dfy`): `Option` and `Result`.
- `Pagination` (`pagination.dfy`): an abstract Django `Paginator` with Django's
  defaults, that is, an empty first page is allowed and there are no orphans.
  It has `num_pages = max(1, ceil(count / per_page))`, page lookup with its two
  refusals, and `has_previous`/`has_next`.
- `Sources` (`sources.dfy`): the backing collection, classified by the capability
  the code relies on. A query set has `count()` and slicing. A list or tuple has a
  built-in `count` that needs an argument. A bare iterator has neither. The module
  also holds Python slicing for non-negative bounds.
- `ConnectionField` (`connection_field.py`'s logic, in `connection_field.dfy`): the
  slicing function, the glue, and the total-count resolver, both as written and
  corrected (see Findings).
- `SliceProperties` (`slice_properties.dfy`): the page flags stated in terms of the
  offset, limit and collection size; the window; the past-the-end behaviour; the
  documented mismatch between flags and data; and the `total_count` guarantees.

The page flags come from the target page, `ceil(offset / limit) + 1`, clamped to
the last page. The results come from the unclamped window. The model keeps this
mismatch exactly: `FlagsAndWindowDisagree` and `NextPageMissed` state it, and
`OffsetPastEnd` shows that an offset past the end returns no items and no next
page, but can report a previous page.

## Model

| member | source | states |
|---|---|---|
| Pagination.CeilDiv | graphene_django_pagination/connection_field.py:89 | `math.ceil(offset / limit)` for a non-negative offset: the least quotient whose multiple of the limit covers the offset |
| Pagination.Paginator.NumPages | graphene_django_pagination/connection_field.py:90 | the paginator has at least one page; pages cover every item and the last page is non-empty |
| Pagination.Paginator.Page | graphene_django_pagination/connection_field.py:91 | `paginator.page(n)` succeeds exactly for 1 <= n <= num_pages and refuses the rest with the matching error |
| Pagination.PageFlagsMatchItems | graphene_django_pagination/connection_field.py:96 | a page has a successor iff items remain after its last slot, and a predecessor iff items precede its first slot |
| Sources.Slice | graphene_django_pagination/connection_field.py:87 | Python slicing with non-negative bounds: the run of items from `start`, cut at `stop` and at the end |
| ConnectionField.TargetPage | graphene_django_pagination/connection_field.py:89-90 | the page whose flags are reported lies in [1, num_pages], and falls below `ceil(offset/limit)+1` only when clamped to the last page |
| ConnectionField.ConnectionFromListSlice | graphene_django_pagination/connection_field.py:71-100 | no limit returns the whole collection, both flags off, nothing cached; a limit <= 0 is refused before anything is read; otherwise at most `limit` items equal to the window at the offset, with the cached length equal to the collection size |
| ConnectionField.ResolveConnection | graphene_django_pagination/connection_field.py:57-68 | the connection of the slicing function, with the unchanged backing collection attached |
| ConnectionField.ResolveTotalCountAsWritten | graphene_django_pagination/connection_field.py:45-52 | as written: cached length first, else `count()`, else materialised length; a list's `count()` raises instead of falling through |
| ConnectionField.ResolveTotalCount | graphene_django_pagination/connection_field.py:45-52 | intended precedence: cached length first, else the size of the backing collection; no collection and no length is an error |
| SliceProperties.FlagsFromTargetPage | graphene_django_pagination/connection_field.py:90-96 | `has_previous_page` iff target page > 1, `has_next_page` iff target page < num_pages |
| SliceProperties.HasPreviousIff | graphene_django_pagination/connection_field.py:89-96 | a previous page is reported iff offset > 0 and the collection is longer than one page |
| SliceProperties.HasNextIff | graphene_django_pagination/connection_field.py:89-96 | a next page is reported iff items remain after the page following the one the offset rounds up into |
| SliceProperties.HasNextSound | graphene_django_pagination/connection_field.py:87-96 | when a next page is reported, items follow the returned window |
| SliceProperties.HasPreviousSound | graphene_django_pagination/connection_field.py:87-96 | when a previous page is reported, the offset is positive |
| SliceProperties.ResultsAreWindow | graphene_django_pagination/connection_field.py:87 | results are `source[offset .. min(offset+limit, N)]`, and empty iff offset >= N |
| SliceProperties.OffsetPastEnd | graphene_django_pagination/connection_field.py:87-96 | an offset past the end is not an error: empty results, no next page, a previous page iff N > limit |
| SliceProperties.FlagsAndWindowDisagree | graphene_django_pagination/connection_field.py:87-96 | with 25 items, limit 10 and offset 5, the flags are those of page 2 but the results are items 5 to 14 |
| SliceProperties.NextPageMissed | graphene_django_pagination/connection_field.py:87-96 | with 18 items, limit 10 and offset 5, items 15 to 17 exist past the window but no next page is reported |
| SliceProperties.TwentyFiveItems | graphene_django_pagination/connection_field.py:86-99 | 25 items in pages of 10, read at offsets 0, 20 and 100, give the documented results, flags and length |
| SliceProperties.TotalCountIsSourceSize | graphene_django_pagination/connection_field.py:45-66 | for every limit and offset, `total_count` of a resolved connection is the size of the backing collection |
| SliceProperties.LimitedTotalCountAsWritten | graphene_django_pagination/connection_field.py:45-52 | on the limited path the cached length answers, so even the resolver as written gives the collection size |
| SliceProperties.ListWithoutLimitCountFails | graphene_django_pagination/connection_field.py:50 | a plain list resolved without a limit makes the resolver as written fail, while the corrected one returns its length |
| SliceProperties.AsWrittenAgreesElsewhere | graphene_django_pagination/connection_field.py:45-52 | outside that case the two resolvers agree |

## Left out

- Graphene and Django field wiring is left out: `__init__` argument defaults, the dynamic `type` property that builds the connection class, and the `DjangoFilterConnectionField` base. These are framework plumbing over libraries that are not part of this model.
- `maybe_queryset` (line 58) is left out. It turns a Django manager into its query set. The model takes the collection after that step.
- The `isinstance(limit, int)` assertion (line 83) is left out. `limit` is an `Option<int>`, so only the `limit > 0` assertion remains.
- `math.ceil(offset / limit)` goes through float division. The model uses exact integer ceiling division, so float rounding on huge offsets is not modelled.
- Negative offsets are outside the model. `ConnectionFromListSlice` requires `offset >= 0` once a positive limit is accepted. On a list a negative offset indexes from the end; on a query set it is an error.
- An explicit `offset: null` argument is not modelled. An absent `offset` defaults to 0; `args = args or {}` is the same as all-absent arguments.
- Django's `Paginator` is modelled abstractly: no orphans, empty first page allowed, and counting via `count()` or `len()` always equals the number of items. Its warning for unordered query sets is left out.
- Lazy evaluation, database errors and the cost of counting are left out. The code only propagates them. Every collection is modelled as re-iterable, so a one-shot iterator consumed by `results` before `total_count` is not modelled.
- The unused imports (`re`, `String`, `QuerySet`, `django_version`) have no behaviour.
- The source is never modified, and Dafny's immutable sequences guarantee this. `ResolveConnection` states that the attached collection is the source itself.

## Findings

| source | as written | input that shows it | evidently intended | confidence | as-written member | corrected member |
|---|---|---|---|---|---|---|
| graphene_django_pagination/connection_field.py:50 | `self.iterable.count()` is tried, and only `AttributeError` falls through to `len(list(self.iterable))` | a plain Python list resolved with no `limit` argument, then `totalCount` queried: no length is cached, and `list.count()` with no argument raises `TypeError`, which escapes | a collection without an argument-free `count()` is measured by its length (Django's own `Paginator.count` makes this check) | medium; not executed; depends on a plain list reaching the no-limit path | SliceProperties.ListWithoutLimitCountFails (on ConnectionField.ResolveTotalCountAsWritten) | ConnectionField.ResolveTotalCount (with SliceProperties.TotalCountIsSourceSize) |
