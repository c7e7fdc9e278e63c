/**
 * Generators (Sources/Generator/Generator.swift).
 *
 * A generator keeps an ordered list of formers and builds a result by
 * applying every former, in list order, to one freshly initialised result.
 * The Swift formers are closures `(Result) -> Void`. The model assumes
 * `Result` is a reference type that the formers configure in place (Swift
 * constrains it only to `EmptyInitializable`; for a value type each former
 * gets a copy and acts as the identity). Here a result is an abstract state
 * `S` and a former is a function `S -> S`. `Result.init()` of
 * `EmptyInitializable` is the value `empty` the generator is built with.
 */
module Generators {
  import opened Wrappers

  /**
   * The effect of running `formers` on `s` one after another, `formers[0]`
   * first: no formers leave `s` as it is, and the last former runs last, on
   * what all the others produced.
   */
  function Apply<S>(formers: seq<S -> S>, s: S): (r: S)
    ensures formers == [] ==> r == s
    ensures formers != [] ==> r == formers[|formers| - 1](Apply(formers[..|formers| - 1], s))
    decreases |formers|
  {
    if formers == [] then s
    else
      assert formers[..|formers| - 1] == [] || formers[..|formers| - 1][1..] == formers[1..][..|formers[1..]| - 1];
      Apply(formers[1..], formers[0](s))
  }

  /** Running two lists back to back is running their concatenation. */
  lemma {:induction false} ApplyAppend<S>(fs: seq<S -> S>, gs: seq<S -> S>, s: S)
    ensures Apply(fs + gs, s) == Apply(gs, Apply(fs, s))
    decreases |fs|
  {
    if fs == [] {
      assert fs + gs == gs;
    } else {
      assert (fs + gs)[1..] == fs[1..] + gs;
      ApplyAppend(fs[1..], gs, fs[0](s));
    }
  }

  /** A former appended at the end runs last, on what the earlier formers produced. */
  lemma ApplySnoc<S>(fs: seq<S -> S>, f: S -> S, s: S)
    ensures Apply(fs + [f], s) == f(Apply(fs, s))
  {
    ApplyAppend(fs, [f], s);
  }

  /** Former `k` of `fs` records its own position `offset + k` in the trace. */
  ghost predicate RecordsPositions(fs: seq<seq<int> -> seq<int>>, offset: int)
  {
    forall k, t {:trigger fs[k](t)} :: 0 <= k < |fs| ==> fs[k](t) == t + [offset + k]
  }

  /** The positions `offset`, `offset + 1`, ..., `offset + n - 1`, in order. */
  function Positions(offset: int, n: nat): (r: seq<int>)
    ensures |r| == n
    ensures forall k :: 0 <= k < n ==> r[k] == offset + k
  {
    seq(n, k => offset + k)
  }

  lemma PositionsSnoc(offset: int, n: nat)
    ensures Positions(offset, n) + [offset + n] == Positions(offset, n + 1)
  {
  }

  /**
   * Every former runs exactly once and in list order: with formers that
   * record their position, the trace is exactly the positions in order.
   */
  lemma {:induction false} ApplyRunsEachOnceInOrder(fs: seq<seq<int> -> seq<int>>, offset: int, t: seq<int>)
    requires RecordsPositions(fs, offset)
    ensures Apply(fs, t) == t + Positions(offset, |fs|)
    decreases |fs|
  {
    if fs != [] {
      var n := |fs| - 1;
      assert RecordsPositions(fs[..n], offset) by {
        forall k, u | 0 <= k < |fs[..n]| ensures fs[..n][k](u) == u + [offset + k] {
          assert fs[..n][k] == fs[k];
        }
      }
      ApplyRunsEachOnceInOrder(fs[..n], offset, t);
      var prev := Apply(fs[..n], t);
      assert Apply(fs, t) == fs[n](prev);
      assert fs[n](prev) == prev + [offset + n];
      PositionsSnoc(offset, n);
    }
  }

  /** `initialize() ?? Result.init()`: the initialised result, or the empty one. */
  function StartingResult<S>(initialized: Option<S>, empty: S): (r: S)
    ensures initialized.Some? ==> r == initialized.value
    ensures initialized.None? ==> r == empty
  {
    match initialized
    case Some(s) => s
    case None => empty
  }

  /** `formers.forEach { $0(result) }`: run every former, in order, on one result. */
  method ApplyFormers<S>(formers: seq<S -> S>, start: S) returns (result: S)
    ensures result == Apply(formers, start)
  {
    result := start;
    for i := 0 to |formers|
      invariant result == Apply(formers[..i], start)
    {
      ApplySnoc(formers[..i], formers[i], start);
      assert formers[..i + 1] == formers[..i] + [formers[i]];
      result := formers[i](result);
    }
    assert formers[..|formers|] == formers;
  }

  /** The `Generator` class: a mutable, shared list of formers. */
  class Generator<S> {
    var formers: seq<S -> S>
    /** `Base.init()`. */
    const empty: S

    /** `init()`: no formers. */
    constructor (empty: S)
      ensures this.empty == empty
      ensures formers == []
    {
      this.empty := empty;
      formers := [];
    }

    /** `init(formers:)`: exactly the given formers. */
    constructor WithFormers(empty: S, formers: seq<S -> S>)
      ensures this.empty == empty
      ensures this.formers == formers
    {
      this.empty := empty;
      this.formers := formers;
    }

    /** `form(_:)`: append one former at the end; earlier formers stay as they were. */
    method Form(former: S -> S)
      modifies this
      ensures formers == old(formers) + [former]
      ensures |formers| == |old(formers)| + 1
    {
      formers := formers + [former];
    }

    /** `initialize()`, the protocol's default: a fresh `Result.init()`, never `nil`. */
    function Initialize(): (r: Option<S>)
      ensures r.Some? && r.value == empty
    {
      Some(empty)
    }

    /**
     * `generate()`: start from `initialize()` (or `Result.init()` should it
     * be `nil`) and run every former on it, in list order.
     */
    method Generate() returns (result: S)
      ensures result == Apply(formers, empty)
    {
      result := ApplyFormers(formers, StartingResult(Initialize(), empty));
    }
  }

  /**
   * `left +=> right`: form one former on the generator. The generator is a
   * class instance, so the result is `left` itself and `left` grows.
   */
  method FormOne<S>(left: Generator<S>, right: S -> S) returns (gen: Generator<S>)
    modifies left
    ensures gen == left
    ensures left.formers == old(left.formers) + [right]
  {
    gen := left;
    gen.Form(right);
  }

  /**
   * `left +=> rights`: form each of `rights` in turn, which appends them all,
   * in order, to `left` itself.
   */
  method FormAll<S>(left: Generator<S>, rights: seq<S -> S>) returns (gen: Generator<S>)
    modifies left
    ensures gen == left
    ensures left.formers == old(left.formers) + rights
  {
    gen := left;
    for i := 0 to |rights|
      invariant gen == left
      invariant left.formers == old(left.formers) + rights[..i]
    {
      assert rights[..i + 1] == rights[..i] + [rights[i]];
      gen.Form(rights[i]);
    }
    assert rights[..|rights|] == rights;
  }

  /** Result of running a configuration, if any, after the formers. */
  function Configured<S>(formed: S, configuration: Option<S -> S>): (r: S)
    ensures configuration.None? ==> r == formed
    ensures configuration.Some? ==> r == configuration.value(formed)
  {
    match configuration
    case Some(configure) => configure(formed)
    case None => formed
  }

  /**
   * The free `generate(_:using:configuration:)`, for any conformer of
   * `GeneratorProtocol`. It reads the conformer through the two requirements
   * it uses: what its `initialize()` answers (`initialized`) and its
   * `formers`. It starts from the initialised result, falling back to
   * `t.init()` (here `typeInit`) when that is `nil`, runs the formers in
   * order, then the configuration once, last.
   */
  method GenerateUsing<S>(typeInit: S, initialized: Option<S>, formers: seq<S -> S>, configuration: Option<S -> S>)
    returns (result: S)
    ensures initialized.Some? ==> result == Configured(Apply(formers, initialized.value), configuration)
    ensures initialized.None? ==> result == Configured(Apply(formers, typeInit), configuration)
  {
    result := ApplyFormers(formers, StartingResult(initialized, typeInit));
    if configuration.Some? {
      result := configuration.value(result);
    }
  }

  /** `generate(_:using:configuration:)` with a `Generator`: its default `initialize()` never falls back. */
  method GenerateUsingGenerator<S>(typeInit: S, generator: Generator<S>, configuration: Option<S -> S>)
    returns (result: S)
    ensures result == Configured(Apply(generator.formers, generator.empty), configuration)
  {
    result := GenerateUsing(typeInit, generator.Initialize(), generator.formers, configuration);
  }

  /**
   * The free `generate(via:forming:)`: build a default generator (no
   * formers), let `forming` rework its formers, then generate with no
   * configuration. Without `forming` the result is `Result.init()` itself.
   */
  method GenerateVia<S>(empty: S, forming: Option<seq<S -> S> -> seq<S -> S>>) returns (result: S)
    ensures forming.Some? ==> result == Apply(forming.value([]), empty)
    ensures forming.None? ==> result == empty
  {
    var generator := new Generator(empty);
    if forming.Some? {
      generator.formers := forming.value(generator.formers);
    }
    result := GenerateUsingGenerator(empty, generator, None);
  }
}
