/**
 * Version strings (Sources/SemVer/SemVer.swift).
 *
 * A version prints as `major.minor.patch`, then the release's description
 * (empty, or `-` and a tag), then `.build`. The format borrows the look of
 * Semantic Versioning 2.0.0 without following it: a `releaseToWeb` version
 * prints as four numbers, and several tags contain `_`.
 */
module SemVer {
  import opened Wrappers

  /** Swift's `UInt` on a 64-bit platform. */
  newtype UInt = x: int | 0 <= x < 0x1_0000_0000_0000_0000

  /** The `Release` cases, in declaration order (the source's spelling kept). */
  datatype Release =
    | ReleaseToWeb
    | GeneralAvailability
    | ReleaseToManufacturing
    | ReleaseGandidate
    | OpenBeta
    | Beta
    | ClosedBeta
    | Alpha
    | PreAlpha
  {
    /**
     * `rawValue`: empty only for `releaseToWeb`; otherwise a lower-case tag
     * whose words are joined by `_`, so it never holds a `.` or a `-`.
     */
    function RawValue(): (r: string)
      ensures r == "" <==> this == ReleaseToWeb
      ensures forall c :: c in r ==> 'a' <= c <= 'z' || c == '_'
    {
      match this
      case ReleaseToWeb => ""
      case GeneralAvailability => "ga"
      case ReleaseToManufacturing => "rtm"
      case ReleaseGandidate => "rc"
      case OpenBeta => "open_beta"
      case Beta => "beta"
      case ClosedBeta => "closed_beta"
      case Alpha => "alpha"
      case PreAlpha => "pre_alpha"
    }

    /** `description`: empty for `releaseToWeb`, otherwise `-` and the raw value. */
    function Description(): (r: string)
      ensures this == ReleaseToWeb ==> r == ""
      ensures this != ReleaseToWeb ==> |r| > 1 && r[0] == '-' && r[1..] == RawValue()
      ensures '.' !in r
    {
      if this == ReleaseToWeb then RawValue() else "-" + RawValue()
    }
  }

  /** Raw values are pairwise distinct, and only `releaseToWeb`'s is empty. */
  lemma RawValuesDistinct(a: Release, b: Release)
    ensures a.RawValue() == b.RawValue() ==> a == b
    ensures a.RawValue() == "" <==> a == ReleaseToWeb
  {
  }

  /** The release a description belongs to, if any: the inverse of `Release.Description`. */
  function ReleaseDescribedBy(d: string): (r: Option<Release>)
    ensures r.Some? ==> r.value.Description() == d
  {
    if d == ReleaseToWeb.Description() then Some(ReleaseToWeb)
    else if d == GeneralAvailability.Description() then Some(GeneralAvailability)
    else if d == ReleaseToManufacturing.Description() then Some(ReleaseToManufacturing)
    else if d == ReleaseGandidate.Description() then Some(ReleaseGandidate)
    else if d == OpenBeta.Description() then Some(OpenBeta)
    else if d == Beta.Description() then Some(Beta)
    else if d == ClosedBeta.Description() then Some(ClosedBeta)
    else if d == Alpha.Description() then Some(Alpha)
    else if d == PreAlpha.Description() then Some(PreAlpha)
    else None
  }

  /** Every release is recovered from its description, so descriptions are distinct. */
  lemma ReleaseDescriptionRoundTrip(r: Release)
    ensures ReleaseDescribedBy(r.Description()) == Some(r)
  {
  }

  predicate IsDigit(c: char)
  {
    '0' <= c <= '9'
  }

  predicate AllDigits(s: string)
  {
    forall i :: 0 <= i < |s| ==> IsDigit(s[i])
  }

  function DigitChar(d: nat): (c: char)
    requires d < 10
    ensures IsDigit(c)
  {
    ['0', '1', '2', '3', '4', '5', '6', '7', '8', '9'][d]
  }

  function DigitOf(c: char): (d: nat)
    requires IsDigit(c)
    ensures d < 10
  {
    (c as int - '0' as int) as nat
  }

  /** The number a string of decimal digits denotes, most significant first. */
  function DigitsValue(s: string): nat
    requires AllDigits(s)
    decreases |s|
  {
    if s == [] then 0 else DigitsValue(s[..|s| - 1]) * 10 + DigitOf(s[|s| - 1])
  }

  /**
   * The decimal numeral of `n`, as Swift's string interpolation prints an
   * unsigned integer: digits only, no leading zero, denoting `n`.
   */
  function Decimal(n: nat): (r: string)
    ensures |r| >= 1
    ensures AllDigits(r)
    ensures r[0] == '0' ==> n == 0 && r == "0"
    ensures DigitsValue(r) == n
    decreases n
  {
    if n < 10 then [DigitChar(n)] else Decimal(n / 10) + [DigitChar(n % 10)]
  }

  /** The parts of a version; `SemanticVersionable` requires exactly these. */
  datatype SemanticVersion = SemanticVersion(major: UInt, minor: UInt, patch: UInt, release: Release, build: UInt) {

    /**
     * `description`: `major.minor.patch`, the release's description, then
     * `.build`. No part but the separators contains a dot, so there are
     * exactly three; a `releaseToWeb` version is digits and dots only.
     */
    function Description(): (r: string)
      ensures multiset(r)['.'] == 3
      ensures release == ReleaseToWeb ==> forall c :: c in r ==> IsDigit(c) || c == '.'
    {
      DecimalHasNoDot(major as nat);
      DecimalHasNoDot(minor as nat);
      DecimalHasNoDot(patch as nat);
      DecimalHasNoDot(build as nat);
      JoinedFields(Decimal(major as nat), Decimal(minor as nat), Decimal(patch as nat),
                   release.Description(), Decimal(build as nat));
      Decimal(major as nat) + "." + Decimal(minor as nat) + "." + Decimal(patch as nat)
        + release.Description() + "." + Decimal(build as nat)
    }
  }

  lemma DecimalHasNoDot(n: nat)
    ensures '.' !in Decimal(n)
    ensures multiset(Decimal(n))['.'] == 0
    ensures forall c :: c in Decimal(n) ==> IsDigit(c)
  {
  }

  /** Three dot separators between dot-free fields give exactly three dots. */
  lemma JoinedFields(major: string, minor: string, patch: string, release: string, build: string)
    requires '.' !in major && '.' !in minor && '.' !in patch && '.' !in release && '.' !in build
    ensures var s := major + "." + minor + "." + patch + release + "." + build;
            && multiset(s)['.'] == 3
            && forall c :: c in s ==> c in major || c in minor || c in patch || c in release || c in build || c == '.'
  {
  }

  /** The length of the run of digits at the front of `s`. */
  function DigitRun(s: string): (k: nat)
    ensures k <= |s|
    ensures forall i :: 0 <= i < k ==> IsDigit(s[i])
    ensures k < |s| ==> !IsDigit(s[k])
    decreases |s|
  {
    if s == [] || !IsDigit(s[0]) then 0 else 1 + DigitRun(s[1..])
  }

  /** The position of the first `.` in `s`, or `|s|` when there is none. */
  function FirstDot(s: string): (k: nat)
    ensures k <= |s|
    ensures forall i :: 0 <= i < k ==> s[i] != '.'
    ensures k < |s| ==> s[k] == '.'
    decreases |s|
  {
    if s == [] || s[0] == '.' then 0 else 1 + FirstDot(s[1..])
  }

  /** The `UInt` numeral at the front of `s` and the text after it. */
  function ParseNumber(s: string): Option<(UInt, string)>
  {
    var k := DigitRun(s);
    if k == 0 then None
    else
      assert AllDigits(s[..k]);
      var n := DigitsValue(s[..k]);
      if n < 0x1_0000_0000_0000_0000 then Some((n as UInt, s[k..])) else None
  }

  /** The text after a leading `.`. */
  function SkipDot(s: string): Option<string>
  {
    if s != [] && s[0] == '.' then Some(s[1..]) else None
  }

  /** Reads a version back from its description: the inverse of `SemanticVersion.Description`. */
  function ParseVersion(s: string): Option<SemanticVersion>
  {
    var (major, rest) :- ParseNumber(s);
    var minorText :- SkipDot(rest);
    ParseFromMinor(major, minorText)
  }

  /** Reads `minor.patch`, the release and `.build`, given `major`. */
  function ParseFromMinor(major: UInt, s: string): Option<SemanticVersion>
  {
    var (minor, rest) :- ParseNumber(s);
    var patchText :- SkipDot(rest);
    ParseFromPatch(major, minor, patchText)
  }

  /** Reads `patch`, the release and `.build`, given `major` and `minor`. */
  function ParseFromPatch(major: UInt, minor: UInt, s: string): Option<SemanticVersion>
  {
    var (patch, rest) :- ParseNumber(s);
    var (release, build) :- ParseTail(rest);
    Some(SemanticVersion(major, minor, patch, release, build))
  }

  /** Reads the release description and the `.build` part that end a description. */
  function ParseTail(s: string): Option<(Release, UInt)>
  {
    var k := FirstDot(s);
    var release :- ReleaseDescribedBy(s[..k]);
    var buildText :- SkipDot(s[k..]);
    var (build, rest) :- ParseNumber(buildText);
    if rest == [] then Some((release, build)) else None
  }

  /** A numeral followed by a non-digit is read back as its number. */
  lemma ParseDecimal(n: UInt, rest: string)
    requires rest == [] || !IsDigit(rest[0])
    ensures ParseNumber(Decimal(n as nat) + rest) == Some((n, rest))
  {
    var d := Decimal(n as nat);
    var s := d + rest;
    var k := DigitRun(s);
    assert forall i :: 0 <= i < |d| ==> s[i] == d[i];
    assert |d| < |s| ==> s[|d|] == rest[0];
    assert k == |d|;
    assert s[..k] == d;
    assert s[k..] == rest;
  }

  /** A dot-free prefix ends where the first dot is. */
  lemma FirstDotAfter(prefix: string, rest: string)
    requires '.' !in prefix
    ensures FirstDot(prefix + "." + rest) == |prefix|
  {
    var s := prefix + "." + rest;
    assert forall i :: 0 <= i < |prefix| ==> s[i] == prefix[i];
    assert s[|prefix|] == '.';
  }

  /** The end of a description reads back as its release and build. */
  lemma TailRoundTrip(r: Release, b: UInt)
    ensures ParseTail(r.Description() + "." + Decimal(b as nat)) == Some((r, b))
  {
    var release, build := r.Description(), Decimal(b as nat);
    var s := release + "." + build;
    FirstDotAfter(release, build);
    assert s[..|release|] == release;
    assert s[|release|..] == "." + build;
    assert ("." + build)[1..] == build;
    ReleaseDescriptionRoundTrip(r);
    ParseDecimal(b, []);
    assert build + [] == build;
  }

  /** The patch number and the tail of a description read back. */
  lemma PatchRoundTrip(major: UInt, minor: UInt, v: SemanticVersion)
    ensures ParseFromPatch(major, minor, Decimal(v.patch as nat) + Tail(v))
            == Some(SemanticVersion(major, minor, v.patch, v.release, v.build))
  {
    var tail := Tail(v);
    assert tail[0] == '.' || tail[0] == '-';
    ParseDecimal(v.patch, tail);
    TailRoundTrip(v.release, v.build);
  }

  /** The minor number, the patch number and the tail of a description read back. */
  lemma MinorRoundTrip(major: UInt, v: SemanticVersion)
    ensures ParseFromMinor(major, Decimal(v.minor as nat) + "." + Decimal(v.patch as nat) + Tail(v))
            == Some(SemanticVersion(major, v.minor, v.patch, v.release, v.build))
  {
    var patchText := Decimal(v.patch as nat) + Tail(v);
    assert Decimal(v.minor as nat) + "." + Decimal(v.patch as nat) + Tail(v)
        == Decimal(v.minor as nat) + ("." + patchText);
    ParseDecimal(v.minor, "." + patchText);
    assert ("." + patchText)[1..] == patchText;
    PatchRoundTrip(major, v.minor, v);
  }

  /** What follows `major.minor.patch` in a description. */
  function Tail(v: SemanticVersion): string
  {
    v.release.Description() + "." + Decimal(v.build as nat)
  }

  /** Regrouping the pieces of a description around its first separator. */
  lemma Regroup(major: string, minor: string, patch: string, release: string, build: string)
    ensures major + "." + minor + "." + patch + release + "." + build
            == major + ("." + (minor + "." + patch + (release + "." + build)))
  {
  }

  /** Round trip: every description reads back as the version it describes. */
  lemma DescriptionRoundTrip(v: SemanticVersion)
    ensures ParseVersion(v.Description()) == Some(v)
  {
    var minorText := Decimal(v.minor as nat) + "." + Decimal(v.patch as nat) + Tail(v);
    Regroup(Decimal(v.major as nat), Decimal(v.minor as nat), Decimal(v.patch as nat),
            v.release.Description(), Decimal(v.build as nat));
    assert v.Description() == Decimal(v.major as nat) + ("." + minorText);
    ParseDecimal(v.major, "." + minorText);
    assert ("." + minorText)[1..] == minorText;
    MinorRoundTrip(v.major, v);
  }

  /** Distinct versions have distinct descriptions. */
  lemma DescriptionInjective(v: SemanticVersion, w: SemanticVersion)
    ensures v.Description() == w.Description() ==> v == w
  {
    DescriptionRoundTrip(v);
    DescriptionRoundTrip(w);
  }
}
