/**
 * The base collection a safe collection wraps: a Swift `Array`, indexed by
 * `Int` from 0. These are the native (unchecked) operations the wrapper
 * forwards to; their preconditions are the conditions under which Swift
 * traps instead of answering.
 */
module SwiftArray {

  /**
   * `ArraySlice`, an array's `SubSequence`: a view of the elements at the
   * base's positions `startIndex..<endIndex`, which keeps those positions as
   * its own indices rather than renumbering them from 0.
   */
  datatype ArraySlice<T> = ArraySlice(startIndex: int, contents: seq<T>) {

    function EndIndex(): int
    {
      startIndex + |contents|
    }

    /** `slice[position]`: traps unless `startIndex <= position < endIndex`. */
    function Element(position: int): T
      requires startIndex <= position < EndIndex()
    {
      contents[position - startIndex]
    }
  }

  function StartIndex<T>(a: seq<T>): int
  {
    0
  }

  function EndIndex<T>(a: seq<T>): int
  {
    |a|
  }

  /** `index(after:)` on an array does not check its argument. */
  function IndexAfter<T>(a: seq<T>, i: int): int
  {
    i + 1
  }

  /** `a[position]`: traps unless `startIndex <= position < endIndex`. */
  function Element<T>(a: seq<T>, position: int): T
    requires 0 <= position < |a|
  {
    a[position]
  }

  /** `a[lower..<upper]`: traps unless `startIndex <= lower <= upper <= endIndex`. */
  function Slice<T>(a: seq<T>, lower: int, upper: int): ArraySlice<T>
    requires 0 <= lower <= upper <= |a|
  {
    ArraySlice(lower, a[lower..upper])
  }

  /** `a.count`. */
  function Count<T>(a: seq<T>): nat
  {
    |a|
  }

  /** `a.prefix(upTo: end)`. */
  function PrefixUpTo<T>(a: seq<T>, end: int): ArraySlice<T>
    requires 0 <= end <= |a|
  {
    ArraySlice(0, a[..end])
  }

  /** `a.suffix(from: start)`. */
  function SuffixFrom<T>(a: seq<T>, start: int): ArraySlice<T>
    requires 0 <= start <= |a|
  {
    ArraySlice(start, a[start..])
  }
}
