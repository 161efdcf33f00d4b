/**
 * Version strings of the form "major.minor.patch": `splitVersion` and
 * `isOlderOrEqual` (main.go:125-177).
 */
module Versions {
  import opened Wrappers
  import opened GoStrings
  import opened Strconv

  datatype Triple = Triple(major: int, minor: int, patch: int)

  /** Why a version string was refused: wrong number of parts, or a part Atoi refused. */
  datatype VersionError = InvalidFormat | BadNumber(err: NumError)

  /** Every piece Atoi accepts. */
  predicate AllNumbers(parts: seq<string>)
  {
    forall k :: 0 <= k < |parts| ==> Atoi(parts[k]).Success?
  }

  /** `splitVersion`: exactly three dot-separated parts, each an Atoi integer. */
  function SplitVersion(version: string): (r: Result<Triple, VersionError>)
    ensures r.Success? <==> |Split(version, '.')| == 3 && AllNumbers(Split(version, '.'))
    ensures r == Failure(InvalidFormat) <==> CountChar(version, '.') != 2
    ensures r.Success? ==>
      var parts := Split(version, '.');
      r.value == Triple(Atoi(parts[0]).value, Atoi(parts[1]).value, Atoi(parts[2]).value)
  {
    var parts := Split(version, '.');
    if |parts| != 3 then Failure(InvalidFormat)
    else if Atoi(parts[0]).Failure? then Failure(BadNumber(Atoi(parts[0]).error))
    else if Atoi(parts[1]).Failure? then Failure(BadNumber(Atoi(parts[1]).error))
    else if Atoi(parts[2]).Failure? then Failure(BadNumber(Atoi(parts[2]).error))
    else
      assert AllNumbers(parts) by {
        forall k | 0 <= k < 3 ensures Atoi(parts[k]).Success? {
          assert k == 0 || k == 1 || k == 2;
        }
      }
      Success(Triple(Atoi(parts[0]).value, Atoi(parts[1]).value, Atoi(parts[2]).value))
  }

  /** (major, minor, patch) ordered lexicographically. */
  predicate LexLe(a: Triple, b: Triple)
  {
    a.major < b.major
    || (a.major == b.major && (a.minor < b.minor || (a.minor == b.minor && a.patch <= b.patch)))
  }

  /** `isOlderOrEqual`: both sides must parse; then (major, minor, patch) are compared in order. */
  function IsOlderOrEqual(version: string, lookupVersion: string): (r: Result<bool, VersionError>)
    ensures r.Failure? <==> SplitVersion(version).Failure? || SplitVersion(lookupVersion).Failure?
    ensures SplitVersion(version).Failure? ==> r == Failure(SplitVersion(version).error)
    ensures r.Success? ==> r.value == LexLe(SplitVersion(version).value, SplitVersion(lookupVersion).value)
  {
    match SplitVersion(version)
    case Failure(e) => Failure(e)
    case Success(v) =>
      match SplitVersion(lookupVersion)
      case Failure(e) => Failure(e)
      case Success(lv) =>
        if v.major < lv.major then Success(true)
        else if v.major > lv.major then Success(false)
        else if v.minor < lv.minor then Success(true)
        else if v.minor > lv.minor then Success(false)
        else Success(v.patch <= lv.patch)
  }

  /** The canonical text of a triple: three Itoa numbers joined by dots. */
  function FormatVersion(t: Triple): string
  {
    Join([Itoa(t.major), Itoa(t.minor), Itoa(t.patch)], '.')
  }

  predicate InRange(t: Triple)
  {
    InInt64(t.major) && InInt64(t.minor) && InInt64(t.patch)
  }

  /** splitVersion reads back every triple of 64-bit numbers written in canonical form. */
  lemma {:induction false} SplitFormat(t: Triple)
    requires InRange(t)
    ensures SplitVersion(FormatVersion(t)) == Success(t)
  {
    var parts := [Itoa(t.major), Itoa(t.minor), Itoa(t.patch)];
    forall k | 0 <= k < 3 ensures '.' !in parts[k] {
      ItoaChars(if k == 0 then t.major else if k == 1 then t.minor else t.patch);
    }
    SplitJoin(parts, '.');
    AtoiItoa(t.major);
    AtoiItoa(t.minor);
    AtoiItoa(t.patch);
  }

  /** A version with two parts is refused, whatever its numbers. */
  lemma {:induction false} TwoPartsRefused(a: int, b: int)
    ensures SplitVersion(Join([Itoa(a), Itoa(b)], '.')) == Failure(InvalidFormat)
  {
    var parts := [Itoa(a), Itoa(b)];
    forall k | 0 <= k < 2 ensures '.' !in parts[k] {
      ItoaChars(if k == 0 then a else b);
    }
    SplitJoin(parts, '.');
  }

  /** Every version that parses is older than or equal to itself. */
  lemma OlderOrEqualReflexive(v: string)
    requires SplitVersion(v).Success?
    ensures IsOlderOrEqual(v, v) == Success(true)
  {
  }

  /** Of two versions that both parse, one is always older than or equal to the other. */
  lemma OlderOrEqualTotal(v: string, w: string)
    requires SplitVersion(v).Success? && SplitVersion(w).Success?
    ensures IsOlderOrEqual(v, w) == Success(true) || IsOlderOrEqual(w, v) == Success(true)
  {
  }

  /** The comparison is transitive. */
  lemma OlderOrEqualTransitive(u: string, v: string, w: string)
    requires IsOlderOrEqual(u, v) == Success(true) && IsOlderOrEqual(v, w) == Success(true)
    ensures IsOlderOrEqual(u, w) == Success(true)
  {
  }

  /** Versions older than or equal to each other have the same numbers ("05.5.3" and "5.5.3"). */
  lemma OlderOrEqualAntisymmetric(v: string, w: string)
    requires IsOlderOrEqual(v, w) == Success(true) && IsOlderOrEqual(w, v) == Success(true)
    ensures SplitVersion(v).value == SplitVersion(w).value
  {
  }

  /** The worked comparisons: 5.5.0 <= 5.5.3, 5.5.3 <= 5.5.3, not 5.6.0 <= 5.5.3. */
  lemma {:induction false} OlderOrEqualExamples()
    ensures IsOlderOrEqual(FormatVersion(Triple(5, 5, 0)), FormatVersion(Triple(5, 5, 3))) == Success(true)
    ensures IsOlderOrEqual(FormatVersion(Triple(5, 5, 3)), FormatVersion(Triple(5, 5, 3))) == Success(true)
    ensures IsOlderOrEqual(FormatVersion(Triple(5, 6, 0)), FormatVersion(Triple(5, 5, 3))) == Success(false)
  {
    SplitFormat(Triple(5, 5, 0));
    SplitFormat(Triple(5, 5, 3));
    SplitFormat(Triple(5, 6, 0));
  }

  /** The canonical texts of the triples in the worked comparisons. */
  lemma FormatVersionExamples()
    ensures FormatVersion(Triple(5, 5, 0)) == "5.5.0"
    ensures FormatVersion(Triple(5, 5, 3)) == "5.5.3"
    ensures FormatVersion(Triple(5, 6, 0)) == "5.6.0"
  {
  }

  /**
   * The worked comparisons on the version texts themselves. The texts are
   * parameters pinned by `requires`, which keeps the verifier from
   * unfolding the parser on literal arguments without bound.
   */
  lemma OlderOrEqualTexts(v550: string, v553: string, v560: string)
    requires v550 == "5.5.0" && v553 == "5.5.3" && v560 == "5.6.0"
    ensures IsOlderOrEqual(v550, v553) == Success(true)
    ensures IsOlderOrEqual(v553, v553) == Success(true)
    ensures IsOlderOrEqual(v560, v553) == Success(false)
  {
    FormatVersionExamples();
    OlderOrEqualExamples();
  }

  /** "5.5" has two parts and "5..3" an empty middle part: both are refused. */
  lemma RefusedShapes()
    ensures SplitVersion("5.5") == Failure(InvalidFormat)
    ensures SplitVersion("5..3") == Failure(BadNumber(ErrSyntax))
  {
    assert CountChar("5.5", '.') == 1;
    SplitPrefix("5", ".3", '.');
    SplitPrefix("", "3", '.');
    SplitFree("3", '.');
    assert "5" + ['.'] + ".3" == "5..3";
    assert "" + ['.'] + "3" == ".3";
  }
}
