/**
 * The backing collection a list field resolves to, classified by the
 * Python capabilities the connection field relies on.
 */
module Sources {

  /**
   * - `QuerySet`: a Django query set; `count()` takes no argument and it
   *   can be sliced.
   * - `Sequence`: a plain list or tuple; it can be sliced and measured, but
   *   its built-in `count` needs the value to count as an argument.
   * - `Iterator`: only iterable; it has no `count`, no length and no slicing.
   * `items` is what iterating over the collection yields.
   */
  datatype Source<T> =
    | QuerySet(items: seq<T>)
    | Sequence(items: seq<T>)
    | Iterator(items: seq<T>)
  {
    /** Whether `source[i:j]` is defined. */
    predicate Subscriptable() {
      !Iterator?
    }
  }

  function Min(a: int, b: int): int {
    if a <= b then a else b
  }

  /**
   * Python's `s[start:stop]` for non-negative bounds: bounds past the end
   * are cut back to the end and a reversed range is empty, so the result is
   * the run of `s` that starts at `start`, never longer than `stop - start`.
   */
  function Slice<T>(s: seq<T>, start: nat, stop: nat): (r: seq<T>)
    ensures |r| == if start < stop && start < |s| then Min(stop, |s|) - start else 0
    ensures forall i :: 0 <= i < |r| ==> r[i] == s[start + i]
  {
    if start >= |s| || stop <= start then [] else s[start..Min(stop, |s|)]
  }
}
