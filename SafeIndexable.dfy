/**
 * Safe indices (Sources/SafeAccessible/SafeIndexable.swift).
 *
 * A conformer of `IndexConvertible` is a type `S` together with its failable
 * conversion `asIndex: S -> Result<I, ConversionError>`; the generic
 * operations below take that conversion as a parameter. `AnySafeIndex` is the
 * one conformer the library defines: an immutable wrapper around a native
 * index whose conversion never fails.
 */
module SafeIndexable {
  import opened Wrappers

  /** What a failing `asIndex()` throws. */
  datatype ConversionError = Invalid

  /**
   * `indexValue`: the converted index, or `None` when `asIndex` throws
   * (`try?` turns the thrown error into `nil`).
   */
  function IndexValue<S, I>(asIndex: S -> Result<I, ConversionError>, s: S): (r: Option<I>)
    ensures r.None? <==> asIndex(s).Failure?
    ensures r.Some? ==> asIndex(s) == Success(r.value)
  {
    match asIndex(s)
    case Success(index) => Some(index)
    case Failure(_) => None
  }

  /**
   * `AnySafeIndex<Int>`: the wrapped index is fixed at construction; a
   * datatype value cannot be mutated, matching the private `_index` that no
   * member writes.
   */
  datatype AnySafeIndex = AnySafeIndex(index: int) {

    /** `asIndex()`: declared `throws`, but always yields the wrapped index. */
    function AsIndex(): (r: Result<int, ConversionError>)
      ensures r.Success? && r.value == index
    {
      Success(index)
    }

    /** `<`: delegated to the wrapped indices. */
    function Less(rhs: AnySafeIndex): (r: bool)
      ensures r <==> index < rhs.index
    {
      index < rhs.index
    }

    /** `==`: delegated to the wrapped indices. */
    function Equal(rhs: AnySafeIndex): (r: bool)
      ensures r <==> index == rhs.index
    {
      index == rhs.index
    }
  }

  /** The conversion of `AnySafeIndex`, as a value to hand to generic code. */
  const AnyConversion: AnySafeIndex -> Result<int, ConversionError> := (s: AnySafeIndex) => s.AsIndex()

  /** `AnySafeIndex.safe(t)`: make a safe index from a native one. */
  function Safe(t: int): (r: AnySafeIndex)
    ensures r.AsIndex() == Success(t)
  {
    AnySafeIndex(t)
  }

  /** Every `AnySafeIndex` converts, so `indexValue` is never `nil`. */
  lemma AnyIndexValueNeverNil(s: AnySafeIndex)
    ensures IndexValue(AnyConversion, s) == Some(s.index)
  {
  }

  /** Round trip: `AnySafeIndex.safe(t).indexValue == t`. */
  lemma SafeRoundTrip(t: int)
    ensures IndexValue(AnyConversion, Safe(t)) == Some(t)
  {
  }

  /** `safe(a) < safe(b)` exactly when `a < b`. */
  lemma SafeLessIff(a: int, b: int)
    ensures Safe(a).Less(Safe(b)) <==> a < b
  {
  }

  /** `safe(a) == safe(b)` exactly when `a == b`; Swift's `==` is value identity. */
  lemma SafeEqualIff(a: int, b: int)
    ensures Safe(a).Equal(Safe(b)) <==> a == b
    ensures Safe(a).Equal(Safe(b)) <==> Safe(a) == Safe(b)
  {
  }

  /**
   * `<` on safe indices is a strict total order, as `Comparable` demands,
   * and `==` is the equality it is total against.
   */
  lemma LessIsStrictTotalOrder(x: AnySafeIndex, y: AnySafeIndex, z: AnySafeIndex)
    ensures !x.Less(x)
    ensures x.Less(y) && y.Less(z) ==> x.Less(z)
    ensures x.Less(y) || y.Less(x) || x.Equal(y)
    ensures x.Equal(y) <==> x == y
  {
  }

  /**
   * Conversion preserves order: bounds `lo <= hi` in the safe order (the
   * invariant of a Swift `Range`) convert to native bounds `lo' <= hi'`.
   */
  lemma ConversionPreservesOrder(lo: AnySafeIndex, hi: AnySafeIndex)
    requires !hi.Less(lo)
    ensures IndexValue(AnyConversion, lo).Some? && IndexValue(AnyConversion, hi).Some?
    ensures IndexValue(AnyConversion, lo).value <= IndexValue(AnyConversion, hi).value
  {
  }
}
