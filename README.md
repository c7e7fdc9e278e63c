# Sledge: safe indexing, generators and version strings, in Dafny

This project models three parts of the Swift library Sledge and proves what
they promise.

- **SafeAccessible** (`SafeIndexable.dfy`, `SafeCollection.dfy`, with the
  base array in `SwiftArray.dfy`). A safe collection wraps a base array. Its
  bounds, successor, iteration and native subscripts forward to the base. Its
  two checked subscripts take *safe indices*. With the intended half-open
  guard (`CheckedAt`) the single subscript answers `None` where the base
  would trap. As written, it never yields an element and traps for every
  index past `endIndex` (`CheckedAtAsWritten`; see "## Findings"). The range
  subscript answers `None` where the base would trap, except for bounds that
  pass its guard but convert out of order (see `CheckedSlice` under
  "## Left out"), which cannot happen with `AnySafeIndex`. A safe index is any type with a failable conversion `asIndex` to
  a native index. The generic members take that conversion as a function
  argument. `AnySafeIndex` is the one conformer the library defines: it wraps
  an `Int` and its conversion never fails (`AnyConversion`). A safe index is a
  datatype value, so its wrapped index cannot change after construction.
  Dafny's sequence-index checks guarantee that no checked access reads outside
  `[startIndex, endIndex)`.
  A slice is an `ArraySlice`, as for a Swift array: it keeps the base's
  indices `lower..<upper` instead of renumbering its elements from 0.
- **Generator** (`Generator.dfy`). A `Generator` class holds an ordered list
  of formers and builds a result by applying each former, in list order, to
  one freshly initialised result. In Swift a former is a closure
  `(Result) -> Void`. The model assumes `Result` is a reference type, which
  the formers configure in place; `Result` is constrained only to
  `EmptyInitializable`, and for a value type each former gets a copy and
  cannot change what `generate()` returns, the case where every former is
  the identity. Here a result is an abstract
  state `S` and a former is a function `S -> S`. `Result.init()` is the value
  `empty` that the generator is built with.
- **SemVer** (`SemVer.dfy`). Formats a release enum and a version as
  `major.minor.patch[-tag].build`. Swift's `UInt` interpolation is modelled by
  `Decimal`, which is proved to be a digits-only numeral with the right value.
  A parser `ParseVersion` is proved to be its inverse. The format looks like
  Semantic Versioning 2.0.0 but does not conform to it, and no conformance is
  claimed. A `releaseToWeb` version prints four numbers (`1.2.3.4`), which
  item 2 of that specification does not allow. Tags such as `open_beta` use
  `_`, which item 9 forbids in pre-release identifiers.

Code and tests disagree on the range subscript. The guard at
`Sources/SafeAccessible/SafeCollection.swift:71` accepts an upper bound equal
to `endIndex`. The test at `Tests/SafeAccessibleTests/SafeAccessibleTests.swift:36-37`
expects `nil` for `0..<5` on a five-element array. The model follows the code:
`ArrayScenario` proves the answer is the whole array.

The placeholders in the `SafeCollection` struct are resolved as follows. The
`<#type#>` at `SafeCollection.swift:83` and the nonexistent
`SafeIndex<Base.Index>` at `:86` become `AnySafeIndex` over `Int`.

## Model

| member | source | states |
|---|---|---|
| `SafeIndexable.IndexValue` | Sources/SafeAccessible/SafeIndexable.swift:19-24 | `indexValue` is `None` exactly when `asIndex` throws; otherwise it is the converted index |
| `SafeIndexable.AnySafeIndex.AsIndex` | Sources/SafeAccessible/SafeIndexable.swift:49-51 | `asIndex` never throws and yields the wrapped index |
| `SafeIndexable.AnySafeIndex.Less` | Sources/SafeAccessible/SafeIndexable.swift:69-71 | `<` holds exactly when the wrapped indices are in `<` order |
| `SafeIndexable.AnySafeIndex.Equal` | Sources/SafeAccessible/SafeIndexable.swift:73-75 | `==` holds exactly when the wrapped indices are equal |
| `SafeIndexable.Safe` | Sources/SafeAccessible/SafeIndexable.swift:60-64 | `safe(t)` converts to `t` |
| `SafeIndexable.AnyIndexValueNeverNil` | Sources/SafeAccessible/SafeIndexable.swift:47-55 | an `AnySafeIndex`'s `indexValue` is never `nil`; it is the index given to `init` |
| `SafeIndexable.SafeRoundTrip` | Sources/SafeAccessible/SafeIndexable.swift:61-63 | round trip: `safe(t).indexValue == t` for every `t` |
| `SafeIndexable.SafeLessIff` | Sources/SafeAccessible/SafeIndexable.swift:69-71 | `safe(a) < safe(b)` if and only if `a < b` |
| `SafeIndexable.SafeEqualIff` | Sources/SafeAccessible/SafeIndexable.swift:73-75 | `safe(a) == safe(b)` if and only if `a == b`, which is also value identity of the safe indices |
| `SafeIndexable.LessIsStrictTotalOrder` | Sources/SafeAccessible/SafeIndexable.swift:68-76 | `<` is irreflexive, transitive and total against `==`, as `Comparable` requires |
| `SafeIndexable.ConversionPreservesOrder` | Sources/SafeAccessible/SafeIndexable.swift:68-76 | safe bounds `lo <= hi` convert to native bounds `lo' <= hi'` |
| `SafeCollections.SafeCollection.StartIndex` | Sources/SafeAccessible/SafeCollection.swift:36-39 | `startIndex` equals the base's, which is 0 |
| `SafeCollections.SafeCollection.EndIndex` | Sources/SafeAccessible/SafeCollection.swift:40-43 | `endIndex` equals the base's, which is the element count |
| `SafeCollections.SafeCollection.IndexAfter` | Sources/SafeAccessible/SafeCollection.swift:45-47 | `index(after:)` equals the base's, `i + 1`, and checks nothing (so it is defined past `endIndex`) |
| `SafeCollections.SafeCollection.At` | Sources/SafeAccessible/SafeCollection.swift:49-51 | the unchecked subscript returns the base's element; callable only inside the bounds |
| `SafeCollections.SafeCollection.Slice` | Sources/SafeAccessible/SafeCollection.swift:53-55 | the unchecked range subscript returns the base's `ArraySlice`: it keeps the base's indices, running from `lower` to `upper`, and its element at each position `p` is the base's element at `p` |
| `SafeCollections.SafeCollection.Iterate` | Sources/SafeAccessible/SafeCollection.swift:30-32 | iteration yields as many elements as the base holds, each equal to the base's element at that position |
| `SafeCollections.SafeCollection.WalkIsIteration` | Sources/SafeAccessible/SafeCollection.swift:30-51 | walking `startIndex`, `index(after:)`, `subscript(position:)` up to `endIndex` meets the iterator's elements in the iterator's order |
| `SafeCollections.SafeCollection.Distance` | Sources/SafeAccessible/SafeCollection.swift:45-47 | the number of `index(after:)` steps from `i` to `j` is `j - i` |
| `SafeCollections.SafeCollection.Count` | Tests/SafeAccessibleTests/SafeAccessibleTests.swift:54-56 | `count` equals the base's count and the number of iterated elements |
| `SafeCollections.SafeCollection.PrefixUpTo` | Tests/SafeAccessibleTests/SafeAccessibleTests.swift:70-73 | `prefix(upTo:)` equals the base's slice `0..<end`, `endIndex` included |
| `SafeCollections.SafeCollection.SuffixFrom` | Tests/SafeAccessibleTests/SafeAccessibleTests.swift:79-82 | `suffix(from:)` equals the base's slice `start..<endIndex`, keeping index `start` as its first, `endIndex` included |
| `SafeCollections.SafeCollection.CheckedAt` | Sources/SafeAccessible/SafeCollection.swift:59-64 | checked single subscript with the intended half-open guard: `None` when the index does not convert; `Some` exactly when the converted index is in `[startIndex, endIndex)`, and then the base's element there |
| `SafeCollections.SafeCollection.CheckedAtAsWritten` | Sources/SafeAccessible/SafeCollection.swift:59-64 | the checked single subscript as written (`index > endIndex`): `nil` when the index does not convert or is at most `endIndex`, a trap exactly for converted indices past `endIndex`, never an element |
| `SafeCollections.SafeCollection.NativeAccess` | Sources/SafeAccessible/SafeCollection.swift:63 | the native `self[index]` yields the base's element inside the bounds and traps outside them |
| `SafeCollections.SafeCollection.AsWrittenNeverYieldsElement` | Sources/SafeAccessible/SafeCollection.swift:61-63 | against the intended guard: where the intended subscript yields an element the written one answers `nil`; it traps only where the intended one answers `nil`; the two agree only for indices that do not convert, lie below `startIndex` or equal `endIndex` |
| `SafeCollections.SafeCollection.CheckedSlice` | Sources/SafeAccessible/SafeCollection.swift:66-77 | checked range subscript: `Some` exactly when both bounds convert, `lower >= startIndex` and `upper <= endIndex`; then `startIndex <= lower <= upper <= endIndex` and the result is the base's slice, indexed `lower..<upper` and holding the base's elements there |
| `SafeCollections.SafeCollection.CheckedAtSafe` | Sources/SafeAccessible/SafeCollection.swift:59-64 | with `AnySafeIndex`: `Some(elements[k])` exactly when `startIndex <= k < endIndex`, else `None`; `None` at `endIndex` |
| `SafeCollections.SafeCollection.CheckedSliceSafe` | Sources/SafeAccessible/SafeCollection.swift:66-77 | with `AnySafeIndex` bounds, every range meets the subscript's demand; the result is the base's slice exactly when `startIndex <= lower` and `upper <= endIndex` (`upper == endIndex` accepted), else `None` |
| `SafeCollections.AsWrittenCounterexample` | Sources/SafeAccessible/SafeCollection.swift:61 | on `[1, 2, 3, 4, 5]`, the guard as written answers `nil` at index 2 where 3 is intended, and traps at index 6 where `nil` is intended |
| `SafeCollections.ArrayScenario` | Tests/SafeAccessibleTests/SafeAccessibleTests.swift:27-56 | on `[1, 2, 3, 4, 5]`: `nil` at 5, 3 at 2, the whole array for `0..<5`, `[2, 3]` indexed from 1 for `1..<3`, `nil` for `0..<6`, bounds 0 and 5, successor of `endIndex` 6, count 5 |
| `Generators.Apply` | Sources/Generator/Generator.swift:38 | running formers in list order: none leave the result as it is, and the last former runs on what all the earlier ones produced |
| `Generators.ApplyAppend` | Sources/Generator/Generator.swift:36-40 | running two former lists back to back equals running their concatenation |
| `Generators.ApplySnoc` | Sources/Generator/Generator.swift:50-52 | a former appended by `form` runs last, on what the earlier formers produced |
| `Generators.ApplyRunsEachOnceInOrder` | Sources/Generator/Generator.swift:38 | every former runs exactly once, in list order: formers that record their position produce exactly the positions in order |
| `Generators.StartingResult` | Sources/Generator/Generator.swift:37 | `initialize() ?? Result.init()` is the initialised result, or `Result.init()` when there is none |
| `Generators.ApplyFormers` | Sources/Generator/Generator.swift:38 | the `forEach` over the formers produces the formers applied in list order |
| `Generators.Generator.constructor` | Sources/Generator/Generator.swift:54-56 | `init()` starts with no formers |
| `Generators.Generator.WithFormers` | Sources/Generator/Generator.swift:58-60 | `init(formers:)` stores exactly the given formers |
| `Generators.Generator.Form` | Sources/Generator/Generator.swift:50-52 | `form` appends exactly one former at the end and leaves the earlier ones unchanged |
| `Generators.Generator.Initialize` | Sources/Generator/Generator.swift:32-34 | the default `initialize()` is never `nil`; it is `Result.init()` |
| `Generators.Generator.Generate` | Sources/Generator/Generator.swift:36-40 | `generate()` applies every former, in list order, to `Result.init()` |
| `Generators.FormOne` | Sources/Generator/Generator.swift:76-80 | `left +=> f` returns `left` itself, whose formers are now the old ones followed by `f` |
| `Generators.FormAll` | Sources/Generator/Generator.swift:89-93 | `left +=> rights` returns `left` itself, whose formers are now the old ones followed by all of `rights`, in order |
| `Generators.Configured` | Sources/Generator/Generator.swift:116 | `configuration?(result)`: with no configuration the result is unchanged; otherwise the configuration runs on it once |
| `Generators.GenerateUsing` | Sources/Generator/Generator.swift:111-118 | the free `generate(_:using:configuration:)` for any conformer: it starts from what `initialize()` answers, or from `t.init()` when that is `nil`, applies the formers in order, then the configuration, if any, once and last |
| `Generators.GenerateUsingGenerator` | Sources/Generator/Generator.swift:111-118 | with a `Generator`, whose `initialize()` is never `nil`, the result is its formers applied in order to `Result.init()`, then the configuration |
| `Generators.GenerateVia` | Sources/Generator/Generator.swift:127-131 | `generate(via:forming:)` starts from a generator with no formers; with `forming` it applies the formers `forming` produced, without it the result is `Result.init()` |
| `SemVer.Release.RawValue` | Sources/SemVer/SemVer.swift:8-18 | the raw value is empty exactly for `releaseToWeb`; every other is lower-case letters and `_` |
| `SemVer.Release.Description` | Sources/SemVer/SemVer.swift:20-29 | empty for `releaseToWeb`; otherwise `-` followed by the raw value; never contains `.` |
| `SemVer.RawValuesDistinct` | Sources/SemVer/SemVer.swift:8-18 | raw values are pairwise distinct, and only `releaseToWeb`'s is empty |
| `SemVer.ReleaseDescriptionRoundTrip` | Sources/SemVer/SemVer.swift:20-29 | every release is recovered from its description, so descriptions are pairwise distinct |
| `SemVer.Decimal` | Sources/SemVer/SemVer.swift:44 | a `UInt` prints as a non-empty string of digits, without a leading zero, that denotes the number |
| `SemVer.SemanticVersion.Description` | Sources/SemVer/SemVer.swift:42-46 | a version's description holds exactly three `.`; for `releaseToWeb` it is only digits and dots |
| `SemVer.DescriptionRoundTrip` | Sources/SemVer/SemVer.swift:42-46 | the description is `major.minor.patch`, the release's description, then `.build`: parsing it back yields the version |
| `SemVer.DescriptionInjective` | Sources/SemVer/SemVer.swift:42-46 | distinct versions have distinct descriptions |

## Findings

| source | as written | input that shows it | evidently intended | confidence | as-written member | corrected member |
|---|---|---|---|---|---|---|
| Sources/SafeAccessible/SafeCollection.swift:61 | `guard let index = i.indexValue, index > endIndex else { return nil }` | `[1, 2, 3, 4, 5]` with `.safe(2)` answers `nil` instead of 3; with `.safe(6)` the guard passes and `self[6]` traps (index out of range) | `startIndex <= index < endIndex`: the result type `Element?` promises an element for valid indices, which the guard as written never returns, and the range guard at `:70-71` checks the same bounds the same way (the test at `SafeAccessibleTests.swift:29-30` expects `nil` at `endIndex`, which both guards give) | high; not executed | `SafeCollections.AsWrittenCounterexample` | `SafeCollections.SafeCollection.CheckedAt` |

## Left out

- The growable variant with `removeFirst` and `replaceSubrange` is not modelled. The code has no implementation of it, and `SafeCollection` does not declare `RangeReplaceableCollection`.
- `SafeCollectionError.outOfBounds` (`SafeCollection.swift:8-10`) is not modelled: it is declared and never used.
- The `Elements == Self` default of `elements` (`SafeCollection.swift:23-27`) is not modelled. The only conformer, the `SafeCollection` struct, stores a separate base.
- SafeCollections.SafeCollection.CheckedSlice: bounds that pass the guard at `SafeCollection.swift:67-71` but convert out of order make forming `lowerBound..<upperBound` at `:76` trap. The model makes that a precondition (`SliceFormable`) instead of a modelled outcome. It cannot occur with `AnySafeIndex`: `CheckedSliceSafe` proves every range of safe indices meets it.
- SafeCollections.SafeCollection.IndexAfter: Swift's `Int` is 64-bit, and the model's indices are unbounded integers. `Array.index(after:)` traps on overflow at `Int.max`; the model returns `Int.max + 1` there. The same holds for `AnySafeIndex`, which wraps an unbounded integer.
- The base is a Swift `Array` with `Int` indices and `ArraySlice` slices, the collection the tests use. The declared protocol requires `Self.SubSequence == Self.Elements` (`SafeCollection.swift:18`), which with the typealiases at `:87-88` means `Base.SubSequence == Base`; `Array` does not meet it, so the model follows the tests rather than that constraint. A generic `Collection` base, and `AnySafeIndex` over index types other than `Int`, are not modelled.
- `Collection`'s default algorithms `index(of:)`, `index(where:)` and `prefix(through:)` are not modelled. `count`, `prefix(upTo:)` and `suffix(from:)` are modelled through the forwarded members.
- Generator formers are functions `S -> S`. The in-place side effects of Swift closures on a shared, reference-typed result are abstracted away.
- `EmptyInitializable` (`Sources/Core/EmptyInitializable.swift`, `Generator.swift:10`) is the value `empty` a generator is built with. In the free `generate(_:using:)`, the metatype's `t.init()` is the argument `typeInit`.
- Generators.Generator.Initialize: `Generator` takes `initialize()` from the protocol extension (`Generator.swift:32-34`) and does not declare it, so a subclass cannot override it and a generator's `initialize()` is never `nil`. Other conformers of `GeneratorProtocol` may answer `nil` or any other value; the free `generate(_:using:)` is modelled for them by `GenerateUsing`, which takes that answer as a parameter, so the `?? t.init()` fallback is covered there. Conformer types themselves, their `form` and their own `generate()`, are not modelled beyond the `Generator` class.
- Generators.GenerateVia: modelled for `G` the `Generator` class only. The `inout` reconfiguration closure is modelled as a function from the default generator's formers to new formers. Other effects it could have on a generator, and other conformers' `init()`, are not modelled.
- `Sources/Plus/Collection+/Sequence+.swift` and `Package.swift` are not part of this model: they are thin wrappers over standard-library initialisers and build metadata.
- XCTest mechanics and `print` calls in the tests are not modelled.
