/**
 * Safe collections (Sources/SafeAccessible/SafeCollection.swift).
 *
 * `SafeCollection` wraps a base array. Its bounds, successor, iteration and
 * native subscripts forward to the base; its two checked subscripts take
 * safe indices. With the intended half-open guard (`CheckedAt`) the single
 * subscript answers `None` instead of trapping; as written
 * (`CheckedAtAsWritten`) it never yields an element and traps for every
 * index past `endIndex`. The range subscript answers `None` instead of
 * trapping whenever its converted bounds are in order. The protocol
 * extensions are generic over the safe-index conformer, which is passed as
 * its conversion `asIndex`; the `SafeCollection` struct fixes that conformer
 * to `AnySafeIndex` (conversion `AnyConversion`).
 */
module SafeCollections {
  import opened Wrappers
  import opened SafeIndexable
  import SwiftArray

  /** Swift's half-open `Range<Bound>`, `lowerBound..<upperBound`. */
  datatype Range<B> = Range(lowerBound: B, upperBound: B)

  /** What a Swift access evaluates to: an element, `nil`, or a runtime trap. */
  datatype Access<T> = Value(element: T) | Nil | Fault

  datatype SafeCollection<T> = SafeCollection(elements: seq<T>) {

    /** `startIndex`, forwarded to the base. */
    function StartIndex(): (r: int)
      ensures r == SwiftArray.StartIndex(elements)
      ensures r == 0
    {
      SwiftArray.StartIndex(elements)
    }

    /** `endIndex`, forwarded to the base: one past the last element. */
    function EndIndex(): (r: int)
      ensures r == SwiftArray.EndIndex(elements)
      ensures r == |elements|
    {
      SwiftArray.EndIndex(elements)
    }

    /** `index(after:)`, forwarded to the base, which does not check `i`. */
    function IndexAfter(i: int): (r: int)
      ensures r == SwiftArray.IndexAfter(elements, i)
      ensures r == i + 1
    {
      SwiftArray.IndexAfter(elements, i)
    }

    /** `subscript(position:)`, forwarded unchecked: the caller must stay in bounds. */
    function At(position: int): (r: T)
      requires StartIndex() <= position < EndIndex()
      ensures r == SwiftArray.Element(elements, position)
    {
      SwiftArray.Element(elements, position)
    }

    /** `subscript(bounds:)`, forwarded unchecked: the caller must pass a range inside the bounds. */
    function Slice(bounds: Range<int>): (r: SwiftArray.ArraySlice<T>)
      requires StartIndex() <= bounds.lowerBound <= bounds.upperBound <= EndIndex()
      ensures r == SwiftArray.Slice(elements, bounds.lowerBound, bounds.upperBound)
      ensures r.startIndex == bounds.lowerBound && r.EndIndex() == bounds.upperBound
      ensures forall p :: bounds.lowerBound <= p < bounds.upperBound ==> r.Element(p) == elements[p]
    {
      SwiftArray.Slice(elements, bounds.lowerBound, bounds.upperBound)
    }

    /** `makeIterator()`: the sequence the base's iterator yields, in the base's order. */
    function Iterate(): (r: seq<T>)
      ensures |r| == SwiftArray.Count(elements)
      ensures forall k :: 0 <= k < |r| ==> r[k] == SwiftArray.Element(elements, k)
    {
      elements
    }

    /**
     * The traversal `Collection` performs through the forwarded members:
     * read `subscript(position:)` at `i`, step with `index(after:)`, stop at
     * `endIndex`.
     */
    function Walk(i: int): (r: seq<T>)
      requires StartIndex() <= i <= EndIndex()
      decreases EndIndex() - i
    {
      if i == EndIndex() then [] else [At(i)] + Walk(IndexAfter(i))
    }

    /** Walking the indices meets the same elements, in the same order, as the iterator. */
    lemma {:induction false} WalkIsIteration(i: int)
      requires StartIndex() <= i <= EndIndex()
      ensures Walk(i) == Iterate()[i..]
      decreases EndIndex() - i
    {
      if i < EndIndex() {
        WalkIsIteration(IndexAfter(i));
        assert Iterate()[i..] == [Iterate()[i]] + Iterate()[i + 1..];
      }
    }

    /**
     * `distance(from:to:)` as `Collection` defines it for forward-only
     * collections: the number of `index(after:)` steps from `i` to `j`.
     */
    function Distance(i: int, j: int): (r: nat)
      requires i <= j
      ensures r == j - i
      decreases j - i
    {
      if i == j then 0 else 1 + Distance(IndexAfter(i), j)
    }

    /** `count`: the distance from `startIndex` to `endIndex`, equal to the base's count. */
    function Count(): (r: nat)
      ensures r == SwiftArray.Count(elements)
      ensures r == |Iterate()|
    {
      Distance(StartIndex(), EndIndex())
    }

    /** `prefix(upTo:)`, `Collection`'s default over the forwarded `subscript(bounds:)`. */
    function PrefixUpTo(end: int): (r: SwiftArray.ArraySlice<T>)
      requires StartIndex() <= end <= EndIndex()
      ensures r == SwiftArray.PrefixUpTo(elements, end)
    {
      Slice(Range(StartIndex(), end))
    }

    /** `suffix(from:)`, `Collection`'s default over the forwarded `subscript(bounds:)`. */
    function SuffixFrom(start: int): (r: SwiftArray.ArraySlice<T>)
      requires StartIndex() <= start <= EndIndex()
      ensures r == SwiftArray.SuffixFrom(elements, start)
    {
      Slice(Range(start, EndIndex()))
    }

    /**
     * The checked single subscript `subscript(i: SafeIndex) -> Element?`,
     * with the half-open guard `startIndex <= index < endIndex` that its
     * `Element?` result and the bounds checked by the range subscript call
     * for. `None` when `i` does not convert or
     * lands outside the bounds; the base is read only inside them.
     */
    function CheckedAt<S>(asIndex: S -> Result<int, ConversionError>, i: S): (r: Option<T>)
      ensures IndexValue(asIndex, i).None? ==> r.None?
      ensures r.Some? <==>
                IndexValue(asIndex, i).Some? && StartIndex() <= IndexValue(asIndex, i).value < EndIndex()
      ensures r.Some? ==> r.value == elements[IndexValue(asIndex, i).value]
    {
      match IndexValue(asIndex, i)
      case None => None
      case Some(index) =>
        if StartIndex() <= index < EndIndex() then Some(At(index)) else None
    }

    /** Evaluating the native `self[index]`: the element inside the bounds, a trap outside. */
    function NativeAccess(index: int): (r: Access<T>)
      ensures r.Fault? <==> !(StartIndex() <= index < EndIndex())
      ensures r.Value? ==> r.element == elements[index]
      ensures !r.Nil?
    {
      if StartIndex() <= index < EndIndex() then Value(At(index)) else Fault
    }

    /**
     * The checked single subscript exactly as its guard is written, with
     * `index > endIndex`: it answers `nil` for every index up to `endIndex`
     * and reaches the native subscript only for indices past it.
     */
    function CheckedAtAsWritten<S>(asIndex: S -> Result<int, ConversionError>, i: S): (r: Access<T>)
      ensures r.Nil? <==> IndexValue(asIndex, i).None? || IndexValue(asIndex, i).value <= EndIndex()
      ensures r.Fault? <==> IndexValue(asIndex, i).Some? && IndexValue(asIndex, i).value > EndIndex()
      ensures !r.Value?
    {
      match IndexValue(asIndex, i)
      case None => Nil
      case Some(index) =>
        if index > EndIndex() then NativeAccess(index) else Nil
    }

    /**
     * The guard as written against the intended one: wherever the intended
     * subscript yields an element the written one answers `nil`; it traps
     * only where the intended one answers `nil`; the two agree only on
     * indices that do not convert, lie below `startIndex` or equal `endIndex`.
     */
    lemma AsWrittenNeverYieldsElement<S>(asIndex: S -> Result<int, ConversionError>, i: S)
      ensures CheckedAt(asIndex, i).Some? ==> CheckedAtAsWritten(asIndex, i).Nil?
      ensures CheckedAtAsWritten(asIndex, i).Fault? ==> CheckedAt(asIndex, i).None?
      ensures CheckedAtAsWritten(asIndex, i).Nil? && CheckedAt(asIndex, i).None? <==>
                IndexValue(asIndex, i).None? || IndexValue(asIndex, i).value < StartIndex()
                || IndexValue(asIndex, i).value == EndIndex()
    {
    }

    /**
     * Swift forms `lowerBound..<upperBound` only when the bounds are in
     * order; the range subscript traps if bounds that passed its guard
     * convert out of order. This is what the subscript demands of its caller.
     */
    predicate SliceFormable<S>(asIndex: S -> Result<int, ConversionError>, range: Range<S>)
    {
      var lower, upper := IndexValue(asIndex, range.lowerBound), IndexValue(asIndex, range.upperBound);
      lower.Some? && upper.Some? && StartIndex() <= lower.value && upper.value <= EndIndex()
      ==> lower.value <= upper.value
    }

    /**
     * The checked range subscript `subscript(range: Range<SafeIndex>)`:
     * `None` when a bound does not convert, the lower bound is below
     * `startIndex` or the upper bound is past `endIndex`; otherwise the
     * base's slice. An upper bound equal to `endIndex` is accepted.
     */
    function CheckedSlice<S>(asIndex: S -> Result<int, ConversionError>, range: Range<S>): (r: Option<SwiftArray.ArraySlice<T>>)
      requires SliceFormable(asIndex, range)
      ensures var lower, upper := IndexValue(asIndex, range.lowerBound), IndexValue(asIndex, range.upperBound);
              r.Some? <==> lower.Some? && upper.Some? && StartIndex() <= lower.value && upper.value <= EndIndex()
      ensures var lower, upper := IndexValue(asIndex, range.lowerBound), IndexValue(asIndex, range.upperBound);
              r.Some? ==> StartIndex() <= lower.value <= upper.value <= EndIndex()
                          && r.value.startIndex == lower.value && r.value.EndIndex() == upper.value
                          && r.value.contents == elements[lower.value..upper.value]
    {
      var lower, upper := IndexValue(asIndex, range.lowerBound), IndexValue(asIndex, range.upperBound);
      if lower.Some? && upper.Some? && lower.value >= StartIndex() && upper.value <= EndIndex() then
        Some(Slice(Range(lower.value, upper.value)))
      else
        None
    }

    /**
     * With `AnySafeIndex`, the checked single subscript is `Some(elements[k])`
     * exactly for `startIndex <= k < endIndex`, and `None` at `endIndex`.
     */
    lemma CheckedAtSafe(k: int)
      ensures CheckedAt(AnyConversion, Safe(k)) ==
                if StartIndex() <= k < EndIndex() then Some(SwiftArray.Element(elements, k)) else None
      ensures CheckedAt(AnyConversion, Safe(EndIndex())) == None
    {
    }

    /**
     * With `AnySafeIndex`, every range meets the range subscript's demand,
     * and it answers the base's slice exactly when `startIndex <= lower` and
     * `upper <= endIndex`; an accepted range is always well formed.
     */
    lemma CheckedSliceSafe(range: Range<AnySafeIndex>)
      requires !range.upperBound.Less(range.lowerBound)
      ensures SliceFormable(AnyConversion, range)
      ensures var lower, upper := range.lowerBound.index, range.upperBound.index;
              CheckedSlice(AnyConversion, range) ==
                if StartIndex() <= lower && upper <= EndIndex()
                then Some(SwiftArray.Slice(elements, lower, upper))
                else None
    {
    }
  }

  /**
   * The guard as written against the intended one, on the array `[1, 2, 3, 4, 5]`:
   * at index 2 it answers `nil` where the element 3 is intended, and at
   * index 6 it reaches the native subscript, which traps.
   */
  lemma AsWrittenCounterexample()
    ensures SafeCollection([1, 2, 3, 4, 5]).CheckedAtAsWritten(AnyConversion, Safe(2)) == Nil
    ensures SafeCollection([1, 2, 3, 4, 5]).CheckedAt(AnyConversion, Safe(2)) == Some(3)
    ensures SafeCollection([1, 2, 3, 4, 5]).CheckedAtAsWritten(AnyConversion, Safe(6)) == Fault
    ensures SafeCollection([1, 2, 3, 4, 5]).CheckedAt(AnyConversion, Safe(6)) == None
  {
  }

  /**
   * The array `[1, 2, 3, 4, 5]` through its safe wrapper: nothing at
   * `endIndex` 5, the element 3 at index 2, the whole array for `0..<5`,
   * nothing for `0..<6`; bounds, successor and count agree with the array.
   */
  lemma ArrayScenario()
    ensures var c := SafeCollection([1, 2, 3, 4, 5]);
            && c.CheckedAt(AnyConversion, Safe(5)) == None
            && c.CheckedAt(AnyConversion, Safe(2)) == Some(3)
            && c.CheckedSlice(AnyConversion, Range(Safe(0), Safe(5))) == Some(SwiftArray.ArraySlice(0, [1, 2, 3, 4, 5]))
            && c.CheckedSlice(AnyConversion, Range(Safe(1), Safe(3))) == Some(SwiftArray.ArraySlice(1, [2, 3]))
            && c.CheckedSlice(AnyConversion, Range(Safe(0), Safe(6))) == None
            && c.StartIndex() == 0 && c.EndIndex() == 5
            && c.IndexAfter(c.EndIndex()) == 6
            && c.Count() == 5
  {
    var c := SafeCollection([1, 2, 3, 4, 5]);
    c.CheckedAtSafe(5);
    c.CheckedAtSafe(2);
    c.CheckedSliceSafe(Range(Safe(0), Safe(5)));
    c.CheckedSliceSafe(Range(Safe(0), Safe(6)));
    c.CheckedSliceSafe(Range(Safe(1), Safe(3)));
    assert c.elements[0..5] == [1, 2, 3, 4, 5];
    assert c.elements[1..3] == [2, 3];
  }
}
